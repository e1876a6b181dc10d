/** The live message feed (src/hooks/useSupabaseMessages.ts): the reducers the
    hook applies to its list of messages when the database reports an insert or
    an update, the optimistic mark-as-read, and the grouping of the list into
    per-number threads. The database, its realtime channel and React state are
    not modelled; times are integers. */
module Feed {
  import Seqs

  datatype Direction = Incoming | Outgoing
  datatype ReadStatus = Unread | Read

  /** One row of the `messages` table. */
  datatype FeedMessage = FeedMessage(
    id: string,
    createdAt: int,
    phoneNumber: string,
    content: string,
    direction: Direction,
    status: ReadStatus)

  /** The messages of one number. */
  datatype Thread = Thread(phoneNumber: string, messages: seq<FeedMessage>, lastMessageAt: int, unreadCount: nat)

  predicate DistinctIds(ms: seq<FeedMessage>) {
    forall i, j :: 0 <= i < j < |ms| ==> ms[i].id != ms[j].id
  }

  predicate HasId(ms: seq<FeedMessage>, id: string) {
    exists k :: 0 <= k < |ms| && ms[k].id == id
  }

  // ---------------------------------------------------------------- realtime reducers

  /** The INSERT handler: a message already in the feed is ignored, a new one goes last. */
  function Inserted(prev: seq<FeedMessage>, m: FeedMessage): (r: seq<FeedMessage>)
    ensures HasId(prev, m.id) ==> r == prev
    ensures !HasId(prev, m.id) ==> r == prev + [m]
  {
    if exists k :: 0 <= k < |prev| && prev[k].id == m.id then prev else prev + [m]
  }

  /** Inserting keeps ids distinct, and an insert the channel repeats changes nothing. */
  lemma InsertedDistinct(prev: seq<FeedMessage>, m: FeedMessage)
    requires DistinctIds(prev)
    ensures DistinctIds(Inserted(prev, m))
    ensures HasId(Inserted(prev, m), m.id)
    ensures Inserted(Inserted(prev, m), m) == Inserted(prev, m)
  {
    var r := Inserted(prev, m);
    if !HasId(prev, m.id) {
      assert r[|prev|] == m;
      assert forall k :: 0 <= k < |prev| ==> r[k] == prev[k];
    }
  }

  function Replace(updated: FeedMessage, m: FeedMessage): FeedMessage {
    if m.id == updated.id then updated else m
  }

  /** The UPDATE handler: every message with the updated row's id is replaced by it. */
  function Updated(prev: seq<FeedMessage>, updated: FeedMessage): (r: seq<FeedMessage>)
    ensures |r| == |prev|
    ensures forall k :: 0 <= k < |prev| ==> r[k] == if prev[k].id == updated.id then updated else prev[k]
  {
    Seqs.Map(prev, m => Replace(updated, m))
  }

  /** An update keeps every id in place, so distinct ids stay distinct; one for an
      id the feed lacks changes nothing; repeating it changes nothing more. */
  lemma UpdatedKeepsIds(prev: seq<FeedMessage>, updated: FeedMessage)
    ensures forall k :: 0 <= k < |prev| ==> Updated(prev, updated)[k].id == prev[k].id
    ensures DistinctIds(prev) ==> DistinctIds(Updated(prev, updated))
    ensures !HasId(prev, updated.id) ==> Updated(prev, updated) == prev
    ensures Updated(Updated(prev, updated), updated) == Updated(prev, updated)
  {
    var r := Updated(prev, updated);
    if !HasId(prev, updated.id) {
      assert forall k :: 0 <= k < |prev| ==> r[k] == prev[k];
    }
    var rr := Updated(r, updated);
    assert forall k :: 0 <= k < |prev| ==> rr[k] == r[k];
  }

  function MarkRead(phoneNumber: string, m: FeedMessage): FeedMessage {
    if m.phoneNumber == phoneNumber && m.status == Unread then m.(status := Read) else m
  }

  /** `markAsRead` once the database answered: on an error nothing changes;
      otherwise every unread message of the number, in either direction, is read. */
  function MarkAsRead(prev: seq<FeedMessage>, phoneNumber: string, failed: bool): (r: seq<FeedMessage>)
    ensures |r| == |prev|
    ensures failed ==> r == prev
    ensures !failed ==> forall k :: 0 <= k < |prev| ==>
              r[k] == if prev[k].phoneNumber == phoneNumber && prev[k].status == Unread
                      then prev[k].(status := Read) else prev[k]
  {
    if failed then prev else Seqs.Map(prev, m => MarkRead(phoneNumber, m))
  }

  // ---------------------------------------------------------------- grouping

  /** The messages of one number, in feed order. */
  function Bucket(ms: seq<FeedMessage>, phoneNumber: string): (r: seq<FeedMessage>)
    ensures |r| <= |ms|
    ensures forall k :: 0 <= k < |r| ==> r[k] in ms && r[k].phoneNumber == phoneNumber
    ensures forall k :: 0 <= k < |ms| && ms[k].phoneNumber == phoneNumber ==> ms[k] in r
    decreases |ms|
  {
    if ms == [] then []
    else
      var last := ms[|ms| - 1];
      Bucket(ms[..|ms| - 1], phoneNumber) + (if last.phoneNumber == phoneNumber then [last] else [])
  }

  /** Whether some message of the feed is from the number. */
  predicate Occurs(ms: seq<FeedMessage>, p: string) {
    exists k :: 0 <= k < |ms| && ms[k].phoneNumber == p
  }

  lemma OccursSnoc(ms: seq<FeedMessage>, p: string)
    requires ms != []
    ensures Occurs(ms, p) <==> Occurs(ms[..|ms| - 1], p) || ms[|ms| - 1].phoneNumber == p
  {
    var init := ms[..|ms| - 1];
    if Occurs(ms, p) && ms[|ms| - 1].phoneNumber != p {
      var k :| 0 <= k < |ms| && ms[k].phoneNumber == p;
      assert init[k] == ms[k];
    }
    if Occurs(init, p) {
      var k :| 0 <= k < |init| && init[k].phoneNumber == p;
      assert ms[k] == init[k];
    }
  }

  lemma BucketEmpty(ms: seq<FeedMessage>, p: string)
    requires !Occurs(ms, p)
    ensures Bucket(ms, p) == []
  {
  }

  /** A bucket is the feed filtered by the number: the push loop files each message
      under its number in feed order. */
  lemma {:induction false} BucketIsFilter(ms: seq<FeedMessage>, p: string)
    ensures Bucket(ms, p) == Seqs.Filter(ms, (m: FeedMessage) => m.phoneNumber == p)
    decreases |ms|
  {
    if ms != [] {
      BucketIsFilter(ms[..|ms| - 1], p);
    }
  }

  /** A bucket keeps the feed order and holds each message of the number as often as
      the feed does, and no other message. */
  lemma BucketExact(ms: seq<FeedMessage>, p: string)
    ensures Seqs.IsSubsequence(Bucket(ms, p), ms)
    ensures forall m :: multiset(Bucket(ms, p))[m] == if m.phoneNumber == p then multiset(ms)[m] else 0
  {
    var own := (m: FeedMessage) => m.phoneNumber == p;
    BucketIsFilter(ms, p);
    Seqs.FilterIsSubsequence(ms, own);
    forall m ensures multiset(Bucket(ms, p))[m] == if m.phoneNumber == p then multiset(ms)[m] else 0 {
      Seqs.FilterMultiset(ms, own, m);
    }
  }

  /** The numbers of the feed, each once, in order of first appearance in the feed. */
  function Phones(ms: seq<FeedMessage>): (r: seq<string>)
    ensures forall i, j :: 0 <= i < j < |r| ==> r[i] != r[j]
    ensures forall p :: p in r <==> Occurs(ms, p)
    decreases |ms|
  {
    if ms == [] then []
    else
      var init := Phones(ms[..|ms| - 1]);
      var p := ms[|ms| - 1].phoneNumber;
      assert forall q :: Occurs(ms, q) <==> Occurs(ms[..|ms| - 1], q) || p == q by {
        forall q ensures Occurs(ms, q) <==> Occurs(ms[..|ms| - 1], q) || p == q {
          OccursSnoc(ms, q);
        }
      }
      if p in init then init else init + [p]
  }

  /** The grouping loop: a record from number to that number's messages, and the
      order its keys were added in. */
  method Group(messages: seq<FeedMessage>) returns (phones: seq<string>, grouped: map<string, seq<FeedMessage>>)
    ensures phones == Phones(messages)
    ensures forall p :: p in grouped <==> p in phones
    ensures forall p :: p in grouped ==> grouped[p] == Bucket(messages, p)
  {
    phones := [];
    grouped := map[];
    var i := 0;
    while i < |messages|
      invariant 0 <= i <= |messages|
      invariant GroupedBy(messages[..i], phones, grouped)
    {
      var m := messages[i];
      ghost var (phones0, grouped0) := (phones, grouped);
      if m.phoneNumber !in grouped {
        grouped := grouped[m.phoneNumber := []];
        phones := phones + [m.phoneNumber];
      }
      ghost var started := grouped;
      grouped := grouped[m.phoneNumber := grouped[m.phoneNumber] + [m]];
      GroupStep(messages, i, phones0, grouped0, phones, started, grouped);
      i := i + 1;
    }
    assert messages[..i] == messages;
  }

  /** The record holds, under exactly the numbers `phones` of `ms`, each number's bucket. */
  ghost predicate GroupedBy(ms: seq<FeedMessage>, phones: seq<string>, grouped: map<string, seq<FeedMessage>>) {
    && phones == Phones(ms)
    && (forall p :: p in grouped <==> p in phones)
    && (forall p :: p in grouped ==> grouped[p] == Bucket(ms, p))
  }

  /** One message filed: the record grows from the buckets of a prefix to those
      of the prefix one longer. */
  lemma GroupStep(ms: seq<FeedMessage>, i: nat, phones: seq<string>, grouped: map<string, seq<FeedMessage>>,
                  phones': seq<string>, started: map<string, seq<FeedMessage>>, grouped': map<string, seq<FeedMessage>>)
    requires i < |ms| && GroupedBy(ms[..i], phones, grouped)
    requires var p := ms[i].phoneNumber;
      phones' == (if p in grouped then phones else phones + [p])
      && started == (if p in grouped then grouped else grouped[p := []])
      && p in started && grouped' == started[p := started[p] + [ms[i]]]
    ensures GroupedBy(ms[..i + 1], phones', grouped')
  {
    var p := ms[i].phoneNumber;
    OpenThenPush(grouped, p, ms[i], started, grouped');
    FileMessage(ms, i, phones, grouped, phones', grouped');
  }

  /** `GroupStep` with the two map updates taken as one. */
  lemma FileMessage(ms: seq<FeedMessage>, i: nat, phones: seq<string>, grouped: map<string, seq<FeedMessage>>,
                    phones': seq<string>, grouped': map<string, seq<FeedMessage>>)
    requires i < |ms| && phones == Phones(ms[..i])
    requires forall q :: q in grouped <==> q in phones
    requires forall q :: q in grouped ==> grouped[q] == Bucket(ms[..i], q)
    requires var p := ms[i].phoneNumber;
      phones' == (if p in grouped then phones else phones + [p])
      && grouped' == grouped[p := (if p in grouped then grouped[p] else []) + [ms[i]]]
    ensures phones' == Phones(ms[..i + 1])
    ensures forall q :: q in grouped' <==> q in phones'
    ensures forall q :: q in grouped' ==> grouped'[q] == Bucket(ms[..i + 1], q)
  {
    assert phones' == Phones(ms[..i + 1]) by {
      PhonesSnoc(ms, i);
    }
    assert forall q :: q in grouped' <==> q in phones' by {
      GroupKeys(phones, grouped, ms[i], phones', grouped');
    }
    assert forall q :: q in grouped' ==> grouped'[q] == Bucket(ms[..i + 1], q) by {
      if ms[i].phoneNumber !in grouped {
        BucketEmpty(ms[..i], ms[i].phoneNumber);
      }
      GroupBuckets(ms, i, grouped, grouped');
    }
  }

  /** Opening an empty bucket when the key is missing and then pushing is one update. */
  lemma OpenThenPush(grouped: map<string, seq<FeedMessage>>, p: string, m: FeedMessage,
                     started: map<string, seq<FeedMessage>>, grouped': map<string, seq<FeedMessage>>)
    requires started == (if p in grouped then grouped else grouped[p := []])
    requires p in started && grouped' == started[p := started[p] + [m]]
    ensures grouped' == grouped[p := (if p in grouped then grouped[p] else []) + [m]]
  {
  }

  lemma GroupKeys(phones: seq<string>, grouped: map<string, seq<FeedMessage>>, m: FeedMessage,
                  phones': seq<string>, grouped': map<string, seq<FeedMessage>>)
    requires forall q :: q in grouped <==> q in phones
    requires phones' == (if m.phoneNumber in grouped then phones else phones + [m.phoneNumber])
    requires grouped' == grouped[m.phoneNumber := (if m.phoneNumber in grouped then grouped[m.phoneNumber] else []) + [m]]
    ensures forall q :: q in grouped' <==> q in phones'
  {
    forall q ensures q in grouped' <==> q in phones' {
      assert q in phones + [m.phoneNumber] <==> q in phones || q == m.phoneNumber;
    }
  }

  lemma GroupBuckets(ms: seq<FeedMessage>, i: nat, grouped: map<string, seq<FeedMessage>>,
                     grouped': map<string, seq<FeedMessage>>)
    requires i < |ms|
    requires forall q :: q in grouped ==> grouped[q] == Bucket(ms[..i], q)
    requires ms[i].phoneNumber !in grouped ==> Bucket(ms[..i], ms[i].phoneNumber) == []
    requires var p := ms[i].phoneNumber;
      grouped' == grouped[p := (if p in grouped then grouped[p] else []) + [ms[i]]]
    ensures forall q :: q in grouped' ==> grouped'[q] == Bucket(ms[..i + 1], q)
  {
    forall q | q in grouped' ensures grouped'[q] == Bucket(ms[..i + 1], q) {
      BucketSnoc(ms, i, q);
    }
  }

  lemma PhonesSnoc(ms: seq<FeedMessage>, i: nat)
    requires i < |ms|
    ensures Phones(ms[..i + 1]) ==
              if ms[i].phoneNumber in Phones(ms[..i]) then Phones(ms[..i]) else Phones(ms[..i]) + [ms[i].phoneNumber]
  {
    assert ms[..i + 1][..i] == ms[..i];
  }

  lemma BucketSnoc(ms: seq<FeedMessage>, i: nat, q: string)
    requires i < |ms|
    ensures Bucket(ms[..i + 1], q) == Bucket(ms[..i], q) + (if ms[i].phoneNumber == q then [ms[i]] else [])
  {
    assert ms[..i + 1][..i] == ms[..i];
  }

  function CreatedAt(m: FeedMessage): int {
    m.createdAt
  }

  /** The left fold of the `reduce` that finds the latest time. */
  function LatestFrom(latest: int, ms: seq<FeedMessage>): (r: int)
    ensures r >= latest && forall k :: 0 <= k < |ms| ==> r >= ms[k].createdAt
    ensures r == latest || exists k :: 0 <= k < |ms| && r == ms[k].createdAt
    decreases |ms|
  {
    if ms == [] then latest
    else
      var r := LatestFrom(if ms[0].createdAt > latest then ms[0].createdAt else latest, ms[1..]);
      assert forall k :: 1 <= k < |ms| ==> ms[k] == ms[1..][k - 1];
      r
  }

  predicate UnreadIncoming(m: FeedMessage) {
    m.status == Unread && m.direction == Incoming
  }

  /** One thread: its messages oldest first, their latest time, and how many
      are unread and incoming. */
  function MakeThread(phoneNumber: string, msgs: seq<FeedMessage>): (t: Thread)
    requires msgs != []
    ensures t.phoneNumber == phoneNumber
    ensures multiset(t.messages) == multiset(msgs) && |t.messages| == |msgs|
    ensures Seqs.SortedBy(t.messages, CreatedAt)
    ensures forall k :: 0 <= k < |t.messages| ==> t.messages[k].createdAt <= t.lastMessageAt
    ensures exists k :: 0 <= k < |t.messages| && t.messages[k].createdAt == t.lastMessageAt
    ensures t.unreadCount == Seqs.Count(msgs, UnreadIncoming) && t.unreadCount <= |t.messages|
  {
    var sorted := Seqs.SortByKey(msgs, CreatedAt);
    Seqs.CountPermutation(sorted, msgs, UnreadIncoming);
    Thread(phoneNumber, sorted, LatestFrom(sorted[0].createdAt, sorted), |Seqs.Filter(sorted, UnreadIncoming)|)
  }

  /** The sort is stable: messages with the same `created_at` keep their feed order. */
  lemma MakeThreadStable(phoneNumber: string, msgs: seq<FeedMessage>, time: int)
    requires msgs != []
    ensures Seqs.WithKey(MakeThread(phoneNumber, msgs).messages, CreatedAt, time) == Seqs.WithKey(msgs, CreatedAt, time)
  {
    Seqs.SortByKeyStable(msgs, CreatedAt, time);
  }

  /** Over messages oldest first, the latest time is the last message's. */
  lemma LatestOfSorted(ms: seq<FeedMessage>)
    requires ms != [] && Seqs.SortedBy(ms, CreatedAt)
    ensures LatestFrom(ms[0].createdAt, ms) == ms[|ms| - 1].createdAt
  {
    var r := LatestFrom(ms[0].createdAt, ms);
    var n := |ms|;
    if r != ms[0].createdAt {
      var k :| 0 <= k < n && r == ms[k].createdAt;
      assert k == n - 1 || CreatedAt(ms[k]) <= CreatedAt(ms[n - 1]);
    } else {
      assert n == 1 || CreatedAt(ms[0]) <= CreatedAt(ms[n - 1]);
    }
  }

  /** The thread's last message carries its latest time. */
  lemma MakeThreadLastTime(phoneNumber: string, msgs: seq<FeedMessage>)
    requires msgs != []
    ensures var t := MakeThread(phoneNumber, msgs);
      CreatedAt(t.messages[|t.messages| - 1]) == t.lastMessageAt
  {
    var sorted := Seqs.SortByKey(msgs, CreatedAt);
    assert MakeThread(phoneNumber, msgs).messages == sorted;
    assert MakeThread(phoneNumber, msgs).lastMessageAt == LatestFrom(sorted[0].createdAt, sorted);
    LatestOfSorted(sorted);
  }

  /** So the thread's last message, which the preview shows, is the one that
      came last in the feed among those at the latest time. */
  lemma MakeThreadLast(phoneNumber: string, msgs: seq<FeedMessage>)
    requires msgs != []
    ensures var t := MakeThread(phoneNumber, msgs);
      var ties := Seqs.WithKey(msgs, CreatedAt, t.lastMessageAt);
      ties != [] && t.messages[|t.messages| - 1] == ties[|ties| - 1]
  {
    var sorted := Seqs.SortByKey(msgs, CreatedAt);
    var latest := MakeThread(phoneNumber, msgs).lastMessageAt;
    assert MakeThread(phoneNumber, msgs).messages == sorted;
    MakeThreadLastTime(phoneNumber, msgs);
    Seqs.WithKeyLast(sorted, CreatedAt);
    Seqs.SortByKeyStable(msgs, CreatedAt, latest);
  }

  lemma BucketNonEmpty(ms: seq<FeedMessage>, p: string)
    requires p in Phones(ms)
    ensures Bucket(ms, p) != []
  {
    assert Occurs(ms, p);
    var k :| 0 <= k < |ms| && ms[k].phoneNumber == p;
    assert ms[k] in Bucket(ms, p);
  }

  function ThreadOf(ms: seq<FeedMessage>, p: string): (t: Thread)
    requires p in Phones(ms)
  {
    BucketNonEmpty(ms, p);
    MakeThread(p, Bucket(ms, p))
  }

  /** The threads in key order, before sorting. */
  function Unsorted(ms: seq<FeedMessage>): (r: seq<Thread>)
    ensures |r| == |Phones(ms)|
    ensures forall k :: 0 <= k < |r| ==> r[k] == ThreadOf(ms, Phones(ms)[k])
  {
    var phones := Phones(ms);
    seq(|phones|, k requires 0 <= k < |phones| => ThreadOf(ms, phones[k]))
  }

  function Staleness(t: Thread): int {
    -t.lastMessageAt
  }

  /** `conversations`: one thread per number, the most recently active first. */
  function Threads(ms: seq<FeedMessage>): (r: seq<Thread>)
    ensures multiset(r) == multiset(Unsorted(ms))
    ensures Seqs.SortedBy(r, Staleness)
  {
    Seqs.SortByKey(Unsorted(ms), Staleness)
  }

  /** The hook's grouping, loop and all. */
  method ConversationThreads(messages: seq<FeedMessage>) returns (threads: seq<Thread>)
    ensures threads == Threads(messages)
  {
    var phones, grouped := Group(messages);
    forall p | p in phones ensures grouped[p] != [] {
      BucketNonEmpty(messages, p);
    }
    var unsorted := seq(|phones|, k requires 0 <= k < |phones| => MakeThread(phones[k], grouped[phones[k]]));
    assert unsorted == Unsorted(messages);
    threads := Seqs.SortByKey(unsorted, Staleness);
  }

  // ---------------------------------------------------------------- properties of the threads

  predicate DistinctPhones(ts: seq<Thread>) {
    forall i, j :: 0 <= i < j < |ts| ==> ts[i].phoneNumber != ts[j].phoneNumber
  }

  lemma {:induction false} CountAtMostOne(ts: seq<Thread>, t: Thread)
    requires DistinctPhones(ts)
    ensures multiset(ts)[t] <= 1
    decreases |ts|
  {
    if ts != [] {
      var init := ts[..|ts| - 1];
      assert ts == init + [ts[|ts| - 1]];
      CountAtMostOne(init, t);
      if ts[|ts| - 1] == t {
        assert forall i :: 0 <= i < |init| ==> init[i].phoneNumber != t.phoneNumber;
        assert t !in init;
      }
    }
  }

  lemma TwoCopies(ts: seq<Thread>, i: nat, j: nat)
    requires i < j < |ts| && ts[i] == ts[j]
    ensures multiset(ts)[ts[i]] >= 2
  {
    assert ts == ts[..j] + ts[j..];
    assert ts[i] in ts[..j];
    assert ts[j] in ts[j..];
  }

  /** Reordering threads keeps their numbers distinct. */
  lemma PermutedDistinct(a: seq<Thread>, b: seq<Thread>)
    requires multiset(a) == multiset(b) && DistinctPhones(b)
    ensures DistinctPhones(a)
  {
    forall i, j | 0 <= i < j < |a| ensures a[i].phoneNumber != a[j].phoneNumber {
      if a[i].phoneNumber == a[j].phoneNumber {
        assert a[i] in multiset(b) && a[j] in multiset(b);
        var p :| 0 <= p < |b| && b[p] == a[i];
        var q :| 0 <= q < |b| && b[q] == a[j];
        assert p == q;
        TwoCopies(a, i, j);
        CountAtMostOne(b, a[i]);
        assert false;
      }
    }
  }

  lemma ThreadOfShape(ms: seq<FeedMessage>, t: Thread)
    requires t in Threads(ms)
    ensures t.phoneNumber in Phones(ms) && t == ThreadOf(ms, t.phoneNumber)
  {
    var u := Unsorted(ms);
    assert multiset(Threads(ms)) == multiset(u);
    assert t in multiset(u);
    assert t in u;
    var k :| 0 <= k < |u| && u[k] == t;
    assert t == ThreadOf(ms, Phones(ms)[k]);
  }

  /** The threads partition the feed by number: one thread per number, ... */
  lemma ThreadsDistinct(ms: seq<FeedMessage>)
    ensures DistinctPhones(Threads(ms))
  {
    var u := Unsorted(ms);
    assert DistinctPhones(u);
    PermutedDistinct(Threads(ms), u);
  }

  /** ... none empty, each holding exactly that number's messages ... */
  lemma ThreadsContents(ms: seq<FeedMessage>)
    ensures forall t :: t in Threads(ms) ==>
              t.messages != [] && multiset(t.messages) == multiset(Bucket(ms, t.phoneNumber))
    ensures forall t, m :: t in Threads(ms) ==>
              multiset(t.messages)[m] == if m.phoneNumber == t.phoneNumber then multiset(ms)[m] else 0
  {
    forall t | t in Threads(ms) ensures t.messages != [] && multiset(t.messages) == multiset(Bucket(ms, t.phoneNumber)) {
      ThreadOfShape(ms, t);
      BucketNonEmpty(ms, t.phoneNumber);
    }
    forall t, m | t in Threads(ms)
      ensures multiset(t.messages)[m] == if m.phoneNumber == t.phoneNumber then multiset(ms)[m] else 0
    {
      BucketExact(ms, t.phoneNumber);
    }
  }

  lemma ThreadOfListed(ms: seq<FeedMessage>, p: string)
    requires p in Phones(ms)
    ensures ThreadOf(ms, p) in Threads(ms)
  {
    var u := Unsorted(ms);
    var j :| 0 <= j < |u| && Phones(ms)[j] == p;
    assert u[j] == ThreadOf(ms, p);
    assert multiset(Threads(ms)) == multiset(u);
    assert u[j] in multiset(Threads(ms));
  }

  lemma ThreadOfHolds(ms: seq<FeedMessage>, k: nat)
    requires k < |ms|
    ensures ms[k].phoneNumber in Phones(ms)
    ensures ms[k] in ThreadOf(ms, ms[k].phoneNumber).messages
  {
    var p := ms[k].phoneNumber;
    assert Occurs(ms, p);
    assert ms[k] in Bucket(ms, p);
    assert ms[k] in multiset(ThreadOf(ms, p).messages);
  }

  /** Some thread is the message's number's and holds it. */
  predicate Filed(ts: seq<Thread>, m: FeedMessage) {
    exists i :: 0 <= i < |ts| && ts[i].phoneNumber == m.phoneNumber && m in ts[i].messages
  }

  lemma CoverOne(ms: seq<FeedMessage>, k: int)
    requires 0 <= k < |ms|
    ensures Filed(Threads(ms), ms[k])
  {
    var r := Threads(ms);
    ThreadOfHolds(ms, k);
    var t := ThreadOf(ms, ms[k].phoneNumber);
    ThreadOfListed(ms, ms[k].phoneNumber);
    var i :| 0 <= i < |r| && r[i] == t;
    assert r[i].phoneNumber == ms[k].phoneNumber && ms[k] in r[i].messages;
  }

  /** ... and every message is in the thread of its number. */
  lemma ThreadsCover(ms: seq<FeedMessage>)
    ensures forall k :: 0 <= k < |ms| ==> Filed(Threads(ms), ms[k])
  {
    forall k | 0 <= k < |ms| {
      CoverOne(ms, k);
    }
  }

  /** Threads come most recent first; within one, messages come oldest first and
      its time is that of its latest message. */
  lemma ThreadsOrdered(ms: seq<FeedMessage>)
    ensures forall i, j :: 0 <= i < j < |Threads(ms)| ==> Threads(ms)[i].lastMessageAt >= Threads(ms)[j].lastMessageAt
    ensures forall t :: t in Threads(ms) ==> Seqs.SortedBy(t.messages, CreatedAt)
    ensures forall t :: t in Threads(ms) ==>
              (forall k :: 0 <= k < |t.messages| ==> t.messages[k].createdAt <= t.lastMessageAt) &&
              (exists k :: 0 <= k < |t.messages| && t.messages[k].createdAt == t.lastMessageAt)
    ensures forall t :: t in Threads(ms) ==> t.unreadCount <= |t.messages|
  {
    var r := Threads(ms);
    assert forall i, j :: 0 <= i < j < |r| ==> Staleness(r[i]) <= Staleness(r[j]);
    forall t | t in r
      ensures Seqs.SortedBy(t.messages, CreatedAt)
      ensures (forall k :: 0 <= k < |t.messages| ==> t.messages[k].createdAt <= t.lastMessageAt) &&
              (exists k :: 0 <= k < |t.messages| && t.messages[k].createdAt == t.lastMessageAt)
      ensures t.unreadCount <= |t.messages|
    {
      ThreadOfShape(ms, t);
    }
  }

  /** A thread of read messages counts none unread. */
  lemma AllReadThread(phoneNumber: string, msgs: seq<FeedMessage>)
    requires msgs != [] && forall k :: 0 <= k < |msgs| ==> msgs[k].status == Read
    ensures MakeThread(phoneNumber, msgs).unreadCount == 0
  {
    var sorted := Seqs.SortByKey(msgs, CreatedAt);
    var unread := Seqs.Filter(sorted, UnreadIncoming);
    if unread != [] {
      assert unread[0] in sorted;
      assert unread[0] in multiset(msgs);
    }
  }

  /** After marking a number read, its messages are all read ... */
  lemma MarkedBucketRead(ms: seq<FeedMessage>, phoneNumber: string)
    ensures var bucket := Bucket(MarkAsRead(ms, phoneNumber, false), phoneNumber);
      forall k :: 0 <= k < |bucket| ==> bucket[k].status == Read
  {
    var r := MarkAsRead(ms, phoneNumber, false);
    var bucket := Bucket(r, phoneNumber);
    forall k | 0 <= k < |bucket| ensures bucket[k].status == Read {
      assert bucket[k] in r;
    }
  }

  lemma MarkedThreadOfRead(ms: seq<FeedMessage>, phoneNumber: string)
    requires phoneNumber in Phones(MarkAsRead(ms, phoneNumber, false))
    ensures ThreadOf(MarkAsRead(ms, phoneNumber, false), phoneNumber).unreadCount == 0
  {
    var r := MarkAsRead(ms, phoneNumber, false);
    BucketNonEmpty(r, phoneNumber);
    MarkedBucketRead(ms, phoneNumber);
    AllReadThread(phoneNumber, Bucket(r, phoneNumber));
  }

  /** ... so its thread counts no unread message. */
  lemma MarkedThreadRead(ms: seq<FeedMessage>, phoneNumber: string, t: Thread)
    requires t in Threads(MarkAsRead(ms, phoneNumber, false)) && t.phoneNumber == phoneNumber
    ensures t.unreadCount == 0
  {
    ThreadOfShape(MarkAsRead(ms, phoneNumber, false), t);
    MarkedThreadOfRead(ms, phoneNumber);
  }
}
