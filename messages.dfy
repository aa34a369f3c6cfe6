/**
 * The message and custom-request queries, with each table as a sequence of
 * records: the thread and request filters as predicates over one row, the
 * `unreadOnly` post-filter applied to a page of threads, the unread-message
 * count of a customer, and the merged recent-activity feed.
 */
module Messages {
  import opened Common

  // ---------------------------------------------------------------------------
  // Threads

  /** A thread row with the aggregates the thread queries compute for it. */
  datatype ThreadSummary = ThreadSummary(id: string, userId: string, subject: string, status: string,
                                         priority: string, unreadCount: int)

  /** `status && status.length > 0`: a list filter only applies when it is non-empty. */
  predicate ListFilterSet(values: Option<seq<string>>)
  {
    values.Some? && |values.value| > 0
  }

  /** The `WHERE` of `getUserThreads`: the user's threads, restricted to the given statuses and priorities. */
  predicate UserThreadMatches(t: ThreadSummary, userId: string, status: Option<seq<string>>, priority: Option<seq<string>>)
  {
    t.userId == userId
    && (ListFilterSet(status) ==> t.status in status.value)
    && (ListFilterSet(priority) ==> t.priority in priority.value)
  }

  /** SQL `LIMIT limit OFFSET offset` over rows in query order. */
  function Page<T>(rows: seq<T>, limit: nat, offset: nat): (r: seq<T>)
    ensures |r| <= limit
    ensures offset <= |rows| ==> r == rows[offset..if offset + limit <= |rows| then offset + limit else |rows|]
    ensures offset > |rows| ==> r == []
  {
    if offset > |rows| then []
    else if offset + limit <= |rows| then rows[offset..offset + limit]
    else rows[offset..]
  }

  function HasUnread(): ThreadSummary -> bool
  {
    (t: ThreadSummary) => t.unreadCount > 0
  }

  /**
   * `getUserThreads` after the query: the fetched page, filtered to threads
   * with unread messages when `unreadOnly` is truthy. `ordered` is the
   * user's matching threads in query order (latest message first).
   */
  function UserThreads(ordered: seq<ThreadSummary>, limit: nat, offset: nat, unreadOnly: Option<bool>)
    : (r: seq<ThreadSummary>)
    ensures |r| <= limit
    ensures unreadOnly != Some(true) ==> r == Page(ordered, limit, offset)
    ensures unreadOnly == Some(true) ==> forall t :: t in r <==> t in Page(ordered, limit, offset) && t.unreadCount > 0
  {
    var page := Page(ordered, limit, offset);
    if unreadOnly == Some(true) then Filter(HasUnread(), page) else page
  }

  /**
   * The unread filter runs after the page was cut, so a page of threads
   * whose first entry has nothing unread comes back shorter than the limit
   * even when later threads do have unread messages.
   */
  lemma UnreadOnlyPageCanBeShort(read: ThreadSummary, unread1: ThreadSummary, unread2: ThreadSummary)
    requires read.unreadCount == 0 && unread1.unreadCount > 0 && unread2.unreadCount > 0
    ensures |UserThreads([read, unread1, unread2], 2, 0, Some(true))| == 1
    ensures |Filter(HasUnread(), [read, unread1, unread2])| == 2
  {
    var page := Page([read, unread1, unread2], 2, 0);
    assert page == [read, unread1];
    assert page[1..] == [unread1] && page[1..][1..] == [];
    assert Filter(HasUnread(), page) == [unread1];
    var all := [read, unread1, unread2];
    var tail := [unread1, unread2];
    assert all[1..] == tail && tail[1..] == [unread2] && [unread2][1..] == [];
    assert HasUnread()(unread1) && HasUnread()(unread2) && !HasUnread()(read);
    assert Filter(HasUnread(), [unread2]) == [unread2];
    assert Filter(HasUnread(), tail) == [unread1] + Filter(HasUnread(), [unread2]);
    assert Filter(HasUnread(), all) == tail;
  }

  // ---------------------------------------------------------------------------
  // Custom requests

  datatype CustomRequest = CustomRequest(id: string, userId: string, title: string, description: string,
                                         status: string, requestType: string, quotedPrice: Option<string>,
                                         createdAt: Option<int>)

  /** `title ILIKE '%s%'`, case-insensitively (the `%`/`_` wildcards inside the term are not modelled). */
  predicate TitleHit(r: CustomRequest, search: string)
  {
    Contains(ToLower(r.title), ToLower(search))
  }

  /** `description ILIKE '%s%'`, case-insensitively. */
  predicate DescriptionHit(r: CustomRequest, search: string)
  {
    Contains(ToLower(r.description), ToLower(search))
  }

  /** `title ILIKE '%s%' OR description ILIKE '%s%'`. */
  predicate RequestTextHit(r: CustomRequest, search: string)
  {
    TitleHit(r, search) || DescriptionHit(r, search)
  }

  /** `inArray(status, list)`, pushed only for a non-empty status list. */
  predicate RequestStatusOk(r: CustomRequest, status: Option<seq<string>>)
  {
    ListFilterSet(status) ==> r.status in status.value
  }

  /** `isNotNull(quotedPrice)` for true, `isNull(quotedPrice)` for false, nothing when undefined. */
  predicate RequestQuoteOk(r: CustomRequest, hasQuote: Option<bool>)
  {
    if hasQuote.None? then true
    else if hasQuote.value then r.quotedPrice.Some?
    else r.quotedPrice.None?
  }

  /**
   * The `WHERE` of `getAllCustomRequests` as the code builds it. Drizzle's
   * `and(...)` puts one pair of parentheses around the whole list and none
   * around each condition, and the search condition is a raw
   * `title ILIKE p OR description ILIKE p` fragment pushed last. Since SQL's
   * AND binds tighter than OR, the statement reads
   * `(status AND quote AND title ILIKE p) OR description ILIKE p`.
   */
  predicate RequestMatchesAsWritten(r: CustomRequest, status: Option<seq<string>>, hasQuote: Option<bool>,
                                    search: Option<string>)
  {
    if TruthyStr(search) then
      (RequestStatusOk(r, status) && RequestQuoteOk(r, hasQuote) && TitleHit(r, search.value))
      || DescriptionHit(r, search.value)
    else
      RequestStatusOk(r, status) && RequestQuoteOk(r, hasQuote)
  }

  /**
   * The evidently intended `WHERE` of `getAllCustomRequests`: a non-empty
   * status list, a given `hasQuote` (true: a quoted price is present; false:
   * it is null) and a truthy search each restrict the rows.
   */
  predicate RequestMatches(r: CustomRequest, status: Option<seq<string>>, hasQuote: Option<bool>, search: Option<string>)
  {
    RequestStatusOk(r, status)
    && RequestQuoteOk(r, hasQuote)
    && (TruthyStr(search) ==> RequestTextHit(r, search.value))
  }

  /** The quote filter: true keeps the quoted requests, false the unquoted ones, undefined keeps all. */
  lemma HasQuoteMeaning(r: CustomRequest, status: Option<seq<string>>, search: Option<string>)
    ensures RequestMatches(r, status, Some(true), search) <==> RequestMatches(r, status, None, search) && r.quotedPrice.Some?
    ensures RequestMatches(r, status, Some(false), search) <==> RequestMatches(r, status, None, search) && r.quotedPrice.None?
    ensures !(RequestMatches(r, status, Some(true), search) && RequestMatches(r, status, Some(false), search))
  {
  }

  /**
   * The statement as written admits exactly the intended rows plus, under a
   * truthy search, every row whose description hits, whatever its status and
   * quote.
   */
  lemma AsWrittenAddsDescriptionHits(r: CustomRequest, status: Option<seq<string>>, hasQuote: Option<bool>,
                                     search: Option<string>)
    ensures RequestMatchesAsWritten(r, status, hasQuote, search)
            <==> RequestMatches(r, status, hasQuote, search) || (TruthyStr(search) && DescriptionHit(r, search.value))
    ensures !TruthyStr(search) ==>
              (RequestMatchesAsWritten(r, status, hasQuote, search) <==> RequestMatches(r, status, hasQuote, search))
  {
  }

  /**
   * An unquoted request whose description holds the search term is returned
   * by `getAllCustomRequests({ hasQuote: true, search })`, although the quote
   * filter asks for quoted requests only; the intended filter drops it.
   */
  lemma UnquotedDescriptionHitLeaks(r: CustomRequest, search: string)
    requires search != "" && r.quotedPrice.None?
    requires Contains(ToLower(r.description), ToLower(search))
    ensures RequestMatchesAsWritten(r, None, Some(true), Some(search))
    ensures !RequestMatches(r, None, Some(true), Some(search))
  {
  }

  /** The same leak on concrete values: the term "x" in the description of an unquoted request. */
  lemma UnquotedDescriptionHitExample()
    ensures var r := CustomRequest("r1", "u1", "Cake", "x", "pending", "custom_cake", None, None);
            RequestMatchesAsWritten(r, None, Some(true), Some("x")) && !RequestMatches(r, None, Some(true), Some("x"))
  {
    var r := CustomRequest("r1", "u1", "Cake", "x", "pending", "custom_cake", None, None);
    assert ToLower("x") == "x";
    assert StartsWith(ToLower(r.description)[0..], ToLower("x"));
    UnquotedDescriptionHitLeaks(r, "x");
  }

  // ---------------------------------------------------------------------------
  // Unread count

  datatype Message = Message(id: string, threadId: string, content: string, isFromCustomer: Option<bool>,
                             isRead: Option<bool>, createdAt: Option<int>)

  datatype Thread = Thread(id: string, userId: string, subject: string)

  /** The filter of the count: unread (`isRead = false`) and sent by the bakery (`isFromCustomer = false`). */
  predicate UnreadFromBakery(m: Message)
  {
    m.isRead == Some(false) && m.isFromCustomer == Some(false)
  }

  /** How many of the user's threads the message joins with. */
  function JoinCount(m: Message, threads: seq<Thread>, userId: string): (n: nat)
    ensures n <= |threads|
  {
    if |threads| == 0 then 0
    else JoinCount(m, threads[..|threads| - 1], userId)
         + (if threads[|threads| - 1].id == m.threadId && threads[|threads| - 1].userId == userId then 1 else 0)
  }

  /**
   * `getUnreadCount`: the number of rows of `messages INNER JOIN threads`
   * that belong to the user, are unread and do not come from the customer.
   */
  function UnreadCount(messages: seq<Message>, threads: seq<Thread>, userId: string): nat
  {
    if |messages| == 0 then 0
    else
      var m := messages[|messages| - 1];
      UnreadCount(messages[..|messages| - 1], threads, userId) + (if UnreadFromBakery(m) then JoinCount(m, threads, userId) else 0)
  }

  /** The message lies in one of the user's threads. */
  predicate InUsersThread(m: Message, threads: seq<Thread>, userId: string)
  {
    exists j :: 0 <= j < |threads| && threads[j].id == m.threadId && threads[j].userId == userId
  }

  lemma {:induction false} JoinCountPositive(m: Message, threads: seq<Thread>, userId: string)
    ensures JoinCount(m, threads, userId) > 0 <==> InUsersThread(m, threads, userId)
  {
    if |threads| > 0 {
      var init := threads[..|threads| - 1];
      JoinCountPositive(m, init, userId);
      if InUsersThread(m, init, userId) {
        var j :| 0 <= j < |init| && init[j].id == m.threadId && init[j].userId == userId;
        assert threads[j] == init[j];
      }
      if InUsersThread(m, threads, userId) && threads[|threads| - 1].id != m.threadId {
        var j :| 0 <= j < |threads| && threads[j].id == m.threadId && threads[j].userId == userId;
        assert init[j] == threads[j];
      }
      if InUsersThread(m, threads, userId) && threads[|threads| - 1].userId != userId {
        var j :| 0 <= j < |threads| && threads[j].id == m.threadId && threads[j].userId == userId;
        assert init[j] == threads[j];
      }
    }
  }

  /** The count is zero exactly when no unread bakery message lies in one of the user's threads. */
  lemma {:induction false} UnreadCountZeroIff(messages: seq<Message>, threads: seq<Thread>, userId: string)
    ensures UnreadCount(messages, threads, userId) == 0 <==>
            forall i :: 0 <= i < |messages| ==> !(UnreadFromBakery(messages[i]) && InUsersThread(messages[i], threads, userId))
  {
    if |messages| > 0 {
      var init := messages[..|messages| - 1];
      var m := messages[|messages| - 1];
      UnreadCountZeroIff(init, threads, userId);
      JoinCountPositive(m, threads, userId);
      assert forall i :: 0 <= i < |init| ==> init[i] == messages[i];
    }
  }

  /** A message from the customer, or one already read, never changes the count. */
  lemma CustomerMessagesNotCounted(messages: seq<Message>, threads: seq<Thread>, userId: string, m: Message)
    requires m.isFromCustomer != Some(false) || m.isRead != Some(false)
    ensures UnreadCount(messages + [m], threads, userId) == UnreadCount(messages, threads, userId)
  {
    assert (messages + [m])[..|messages|] == messages;
  }

  // ---------------------------------------------------------------------------
  // Recent activity

  /** A row of the recent-messages query (a message joined with its thread's subject). */
  datatype RecentMessage = RecentMessage(id: string, threadId: string, subject: string, content: string,
                                         isFromCustomer: Option<bool>, createdAt: Option<int>)

  /** A row of the recent-requests query. */
  datatype RecentRequest = RecentRequest(id: string, title: string, status: string, requestType: string,
                                         createdAt: Option<int>)

  datatype ActivityItem = FromMessage(message: RecentMessage) | FromRequest(request: RecentRequest)

  /** An entry of the feed with its `activityType` tag. */
  datatype Activity = Activity(activityType: string, item: ActivityItem)

  /** The sort key: the creation time in milliseconds, 0 when missing. */
  function TimeOf(a: Activity): int
  {
    match a.item
    case FromMessage(m) => m.createdAt.GetOr(0)
    case FromRequest(r) => r.createdAt.GetOr(0)
  }

  /** The two result lists tagged and concatenated, messages first. */
  function Combined(messages: seq<RecentMessage>, requests: seq<RecentRequest>): (r: seq<Activity>)
    ensures |r| == |messages| + |requests|
    ensures forall i :: 0 <= i < |messages| ==> r[i] == Activity("message", FromMessage(messages[i]))
    ensures forall i :: 0 <= i < |requests| ==> r[|messages| + i] == Activity("custom_request", FromRequest(requests[i]))
  {
    seq(|messages|, i requires 0 <= i < |messages| => Activity("message", FromMessage(messages[i])))
    + seq(|requests|, i requires 0 <= i < |requests| => Activity("custom_request", FromRequest(requests[i])))
  }

  /** Newest first. */
  predicate SortedDesc(s: seq<Activity>)
  {
    forall i, j :: 0 <= i < j < |s| ==> TimeOf(s[i]) >= TimeOf(s[j])
  }

  /** Insert `x` before the first entry that is not newer than it. */
  function Insert(x: Activity, s: seq<Activity>): seq<Activity>
  {
    if |s| == 0 then [x]
    else if TimeOf(x) >= TimeOf(s[0]) then [x] + s
    else [s[0]] + Insert(x, s[1..])
  }

  /** `sort((a, b) => dateB - dateA)`: a stable sort, newest first. */
  function SortDesc(s: seq<Activity>): seq<Activity>
  {
    if |s| == 0 then [] else Insert(s[0], SortDesc(s[1..]))
  }

  lemma {:induction false} InsertMultiset(x: Activity, s: seq<Activity>)
    ensures multiset(Insert(x, s)) == multiset(s) + multiset{x}
  {
    if |s| > 0 && TimeOf(x) < TimeOf(s[0]) {
      InsertMultiset(x, s[1..]);
      assert s == [s[0]] + s[1..];
    }
  }

  /** An entry at least as new as every entry of a sorted list can be put in front of it. */
  lemma SortedCons(h: Activity, rest: seq<Activity>)
    requires SortedDesc(rest)
    requires forall y :: y in rest ==> TimeOf(h) >= TimeOf(y)
    ensures SortedDesc([h] + rest)
  {
    var r := [h] + rest;
    forall i, j | 0 <= i < j < |r|
      ensures TimeOf(r[i]) >= TimeOf(r[j])
    {
      assert r[j] == rest[j - 1];
      if i > 0 {
        assert r[i] == rest[i - 1];
      }
    }
  }

  lemma {:induction false} InsertKeeps(x: Activity, s: seq<Activity>)
    requires SortedDesc(s)
    ensures multiset(Insert(x, s)) == multiset(s) + multiset{x}
    ensures SortedDesc(Insert(x, s))
  {
    InsertMultiset(x, s);
    if |s| == 0 {
    } else if TimeOf(x) >= TimeOf(s[0]) {
      SortedCons(x, s);
    } else {
      var tail := s[1..];
      assert SortedDesc(tail) by {
        forall i, j | 0 <= i < j < |tail|
          ensures TimeOf(tail[i]) >= TimeOf(tail[j])
        {
          assert tail[i] == s[i + 1] && tail[j] == s[j + 1];
        }
      }
      InsertKeeps(x, tail);
      var rest := Insert(x, tail);
      forall y | y in rest
        ensures TimeOf(s[0]) >= TimeOf(y)
      {
        assert y in multiset(rest);
        if y != x {
          assert y in multiset(tail);
          var j :| 0 <= j < |tail| && tail[j] == y;
          assert s[j + 1] == y;
        }
      }
      SortedCons(s[0], rest);
    }
  }

  /** The sort returns its input, newest first. */
  lemma {:induction false} SortDescKeeps(s: seq<Activity>)
    ensures multiset(SortDesc(s)) == multiset(s)
    ensures SortedDesc(SortDesc(s))
  {
    if |s| > 0 {
      SortDescKeeps(s[1..]);
      InsertKeeps(s[0], SortDesc(s[1..]));
      assert s == [s[0]] + s[1..];
    }
  }

  /** The first `k` entries of a newest-first list are part of it, and none after them is newer. */
  lemma FrontOfSorted(sorted: seq<Activity>, k: nat)
    requires SortedDesc(sorted) && k <= |sorted|
    ensures multiset(sorted[..k]) <= multiset(sorted)
    ensures forall i, j :: 0 <= i < k <= j < |sorted| ==> TimeOf(sorted[j]) <= TimeOf(sorted[..k][i])
  {
    assert sorted == sorted[..k] + sorted[k..];
    assert multiset(sorted) == multiset(sorted[..k]) + multiset(sorted[k..]);
  }

  /**
   * `getRecentActivity`: the recent messages and the recent requests (each
   * already cut to `limit` by its query) are tagged, merged, sorted newest
   * first with a missing date as 0, and cut to `limit` (10 when not given).
   */
  function GetRecentActivity(messages: seq<RecentMessage>, requests: seq<RecentRequest>, limit: Option<int>)
    : (r: seq<Activity>)
  {
    SliceTo(SortDesc(Combined(messages, requests)), limit.GetOr(10))
  }

  /**
   * The feed holds the newest `limit` entries (all of them when fewer), newest
   * first, each taken from one of the two lists with the matching tag: it is
   * a front part of the sorted merge, and no entry left out is newer than an
   * entry kept. When nothing is cut it holds every entry of both lists.
   */
  lemma RecentActivityFacts(messages: seq<RecentMessage>, requests: seq<RecentRequest>, limit: Option<int>)
    ensures 0 <= limit.GetOr(10) ==> |GetRecentActivity(messages, requests, limit)| <= limit.GetOr(10)
    ensures 0 <= limit.GetOr(10) ==>
              |GetRecentActivity(messages, requests, limit)|
              == if limit.GetOr(10) < |messages| + |requests| then limit.GetOr(10) else |messages| + |requests|
    ensures GetRecentActivity(messages, requests, limit)
            == SortDesc(Combined(messages, requests))[..|GetRecentActivity(messages, requests, limit)|]
    ensures multiset(GetRecentActivity(messages, requests, limit)) <= multiset(Combined(messages, requests))
    ensures forall i, j :: 0 <= i < |GetRecentActivity(messages, requests, limit)| <= j < |SortDesc(Combined(messages, requests))| ==>
              TimeOf(SortDesc(Combined(messages, requests))[j]) <= TimeOf(GetRecentActivity(messages, requests, limit)[i])
    ensures SortedDesc(GetRecentActivity(messages, requests, limit))
    ensures forall a :: a in GetRecentActivity(messages, requests, limit) ==>
              (a.activityType == "message" && a.item.FromMessage? && a.item.message in messages)
              || (a.activityType == "custom_request" && a.item.FromRequest? && a.item.request in requests)
    ensures |messages| + |requests| <= limit.GetOr(10) ==>
              multiset(GetRecentActivity(messages, requests, limit)) == multiset(Combined(messages, requests))
  {
    var all := Combined(messages, requests);
    var sorted := SortDesc(all);
    SortDescKeeps(all);
    var r := GetRecentActivity(messages, requests, limit);
    assert r == sorted[..|r|];
    forall i, j | 0 <= i < j < |r|
      ensures TimeOf(r[i]) >= TimeOf(r[j])
    {
      assert r[i] == sorted[i] && r[j] == sorted[j];
    }
    forall a | a in r
      ensures (a.activityType == "message" && a.item.FromMessage? && a.item.message in messages)
              || (a.activityType == "custom_request" && a.item.FromRequest? && a.item.request in requests)
    {
      var i :| 0 <= i < |r| && r[i] == a;
      assert sorted[i] == a;
      assert a in multiset(sorted);
      assert a in multiset(all);
      var k :| 0 <= k < |all| && all[k] == a;
      if k < |messages| {
        assert messages[k] in messages;
      } else {
        assert requests[k - |messages|] in requests;
      }
    }
    assert |sorted| == |all| by {
      assert |multiset(sorted)| == |multiset(all)|;
    }
    FrontOfSorted(sorted, |r|);
    if |messages| + |requests| <= limit.GetOr(10) {
      assert r == sorted;
    }
  }
}
