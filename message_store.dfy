/**
 * The messages collection: the documents the consumer writes and the
 * command service reads back by thread, oldest first, a page at a time.
 */
module MessageStore {
  import opened Events

  /** MessageCommand.SEND_MESSAGE.getCommand() */
  const SendMessage: string := "SEND_MESSAGE"

  /** MessageStatus.SENT.getStatus() */
  const SentStatus: string := "sent"

  /** A document of the messages collection; the store assigns no id the model needs. */
  datatype StoredMessage = StoredMessage(
    threadId: string,
    senderId: string,
    senderUsername: string,
    content: string,
    timestamp: int,
    status: string)

  /** The consumer's document for a message command: the event's thread, sender, content and time, with status "sent". */
  function MessageOf(ev: MessageCommandEvent): (m: StoredMessage)
    ensures m.status == SentStatus && m.threadId == ev.threadId && m.senderId == ev.senderId
    ensures m.senderUsername == ev.senderUsername && m.content == ev.content && m.timestamp == ev.timestamp
  {
    StoredMessage(ev.threadId, ev.senderId, ev.senderUsername, ev.content, ev.timestamp, SentStatus)
  }

  /** The documents of one thread, in store order. */
  function InThread(ms: seq<StoredMessage>, threadId: string): (r: seq<StoredMessage>)
    ensures |r| <= |ms|
    ensures forall m :: m in r <==> m in ms && m.threadId == threadId
  {
    if ms == [] then []
    else if ms[0].threadId == threadId then [ms[0]] + InThread(ms[1..], threadId)
    else InThread(ms[1..], threadId)
  }

  /** A message appended to the store comes last in its thread: the thread keeps store order. */
  lemma {:induction false} InThreadAppend(ms: seq<StoredMessage>, m: StoredMessage, threadId: string)
    ensures InThread(ms + [m], threadId) == InThread(ms, threadId) + (if m.threadId == threadId then [m] else [])
  {
    if ms == [] {
      assert ms + [m] == [m];
    } else {
      assert (ms + [m])[1..] == ms[1..] + [m];
      InThreadAppend(ms[1..], m, threadId);
    }
  }

  predicate SortedByTimestamp(ms: seq<StoredMessage>) {
    forall i, j :: 0 <= i < j < |ms| ==> ms[i].timestamp <= ms[j].timestamp
  }

  /** Places `m` before the first document that is not older than it. */
  function InsertByTimestamp(m: StoredMessage, ms: seq<StoredMessage>): (r: seq<StoredMessage>)
    ensures |r| == |ms| + 1
    ensures multiset(r) == multiset(ms) + multiset{m}
    ensures forall x :: x in r <==> x == m || x in ms
  {
    if ms == [] then [m]
    else
      assert ms == [ms[0]] + ms[1..];
      if ms[0].timestamp < m.timestamp then [ms[0]] + InsertByTimestamp(m, ms[1..]) else [m] + ms
  }

  lemma {:induction false} InsertKeepsSorted(m: StoredMessage, ms: seq<StoredMessage>)
    requires SortedByTimestamp(ms)
    ensures SortedByTimestamp(InsertByTimestamp(m, ms))
  {
    var r := InsertByTimestamp(m, ms);
    if ms != [] && ms[0].timestamp < m.timestamp {
      InsertKeepsSorted(m, ms[1..]);
      var tail := InsertByTimestamp(m, ms[1..]);
      assert r == [ms[0]] + tail;
      forall i, j | 0 <= i < j < |r|
        ensures r[i].timestamp <= r[j].timestamp
      {
        assert r[j] == tail[j - 1];
        if i > 0 {
          assert r[i] == tail[i - 1];
        } else {
          assert tail[j - 1] in tail;
        }
      }
    } else if ms != [] {
      assert r == [m] + ms;
      forall i, j | 0 <= i < j < |r|
        ensures r[i].timestamp <= r[j].timestamp
      {
        assert r[j] == ms[j - 1];
        if i > 0 {
          assert r[i] == ms[i - 1];
        }
      }
    }
  }

  /** OrderByTimestampAsc: the documents oldest first, ties in store order. */
  function SortByTimestamp(ms: seq<StoredMessage>): (r: seq<StoredMessage>)
    ensures |r| == |ms|
    ensures multiset(r) == multiset(ms)
  {
    if ms == [] then []
    else assert ms == [ms[0]] + ms[1..]; InsertByTimestamp(ms[0], SortByTimestamp(ms[1..]))
  }

  /** The ordered result is sorted and holds exactly the documents it was given. */
  lemma {:induction false} SortByTimestampSorts(ms: seq<StoredMessage>)
    ensures SortedByTimestamp(SortByTimestamp(ms))
    ensures forall m :: m in SortByTimestamp(ms) <==> m in ms
  {
    if ms != [] {
      SortByTimestampSorts(ms[1..]);
      InsertKeepsSorted(ms[0], SortByTimestamp(ms[1..]));
    }
    forall m
      ensures m in SortByTimestamp(ms) <==> m in ms
    {
      assert m in SortByTimestamp(ms) <==> m in multiset(SortByTimestamp(ms));
      assert m in ms <==> m in multiset(ms);
    }
  }

  /** PageRequest.of(page, size) applied to an ordered result: the `page`-th run of `size` documents. */
  function Page(ms: seq<StoredMessage>, page: int, size: int): (r: seq<StoredMessage>)
    requires page >= 0 && size >= 1
    ensures |r| <= size
    ensures page * size < |ms| ==> r != []
    ensures |r| == if page * size >= |ms| then 0 else if |ms| - page * size < size then |ms| - page * size else size
    ensures forall k :: 0 <= k < |r| ==> page * size + k < |ms| && r[k] == ms[page * size + k]
  {
    var start := page * size;
    if start >= |ms| then []
    else if start + size <= |ms| then ms[start..start + size]
    else ms[start..]
  }

  /** Every document of a page lies in the ordered sequence, and a page of a sorted sequence is sorted. */
  lemma PageIsSortedPart(ms: seq<StoredMessage>, page: int, size: int)
    requires page >= 0 && size >= 1 && SortedByTimestamp(ms)
    ensures SortedByTimestamp(Page(ms, page, size))
    ensures forall m :: m in Page(ms, page, size) ==> m in ms
  {
    var r := Page(ms, page, size);
    forall i, j | 0 <= i < j < |r|
      ensures r[i].timestamp <= r[j].timestamp
    {
      assert r[i] == ms[page * size + i] && r[j] == ms[page * size + j];
    }
  }

  /** Ordering a thread neither adds nor drops a message: it holds exactly the thread's messages. */
  lemma OrderedThreadMembers(ms: seq<StoredMessage>, threadId: string)
    ensures forall m :: m in SortByTimestamp(InThread(ms, threadId)) <==> m in ms && m.threadId == threadId
  {
    var thread := InThread(ms, threadId);
    forall m
      ensures m in SortByTimestamp(thread) <==> m in thread
    {
      assert m in SortByTimestamp(thread) <==> m in multiset(SortByTimestamp(thread));
    }
  }

  class MessageRepository {
    var messages: seq<StoredMessage>

    constructor ()
      ensures messages == []
    {
      messages := [];
    }

    /** save: the document is appended. */
    method Save(m: StoredMessage)
      modifies this
      ensures messages == old(messages) + [m]
    {
      messages := messages + [m];
    }

    /** findByThreadIdOrderByTimestampAsc without a page: the whole thread, oldest first. */
    function FindByThread(threadId: string): (r: seq<StoredMessage>)
      reads this
      ensures SortedByTimestamp(r)
      ensures multiset(r) == multiset(InThread(messages, threadId))
    {
      SortByTimestampSorts(InThread(messages, threadId));
      SortByTimestamp(InThread(messages, threadId))
    }

    /** findByThreadIdOrderByTimestampAsc with a pageable: one page of the ordered thread. */
    function FindPageByThread(threadId: string, page: int, size: int): (r: seq<StoredMessage>)
      requires page >= 0 && size >= 1
      reads this
      ensures |r| <= size && SortedByTimestamp(r)
      ensures forall m :: m in r ==> m in messages && m.threadId == threadId
    {
      var all := FindByThread(threadId);
      PageIsSortedPart(all, page, size);
      OrderedThreadMembers(messages, threadId);
      Page(all, page, size)
    }

    /** countByThreadId */
    function CountByThread(threadId: string): (n: nat)
      reads this
      ensures n == |FindByThread(threadId)| <= |messages|
    {
      |InThread(messages, threadId)|
    }
  }
}
