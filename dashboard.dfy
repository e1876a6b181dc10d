/** The dashboard's four counters (src/pages/Dashboard.tsx). */
module Dashboard {
  import opened Domain
  import Seqs

  datatype Stats = Stats(totalContacts: nat, totalCampaigns: nat, messagesSent: nat, pendingMessages: nat)

  /** A log counts as sent once the provider accepted it, delivered or not. */
  predicate IsSent(l: MessageLog) {
    l.status == Sent || l.status == Delivered
  }

  predicate IsPending(l: MessageLog) {
    l.status == Pending
  }

  function SentCount(logs: seq<MessageLog>): nat {
    Seqs.Count(logs, IsSent)
  }

  function PendingCount(logs: seq<MessageLog>): nat {
    Seqs.Count(logs, IsPending)
  }

  /** The counters shown on the page. */
  function DashboardStats(contacts: seq<Contact>, campaigns: seq<Campaign>, logs: seq<MessageLog>): (r: Stats)
    ensures r.totalContacts == |contacts| && r.totalCampaigns == |campaigns|
    ensures r.messagesSent == SentCount(logs) && r.pendingMessages == PendingCount(logs)
    ensures r.messagesSent + r.pendingMessages <= |logs|
  {
    SentPendingBound(logs);
    Stats(|contacts|, |campaigns|, SentCount(logs), PendingCount(logs))
  }

  /** No log is both sent and pending, so the two counters never exceed the logs. */
  lemma {:induction false} SentPendingBound(logs: seq<MessageLog>)
    ensures SentCount(logs) + PendingCount(logs) <= |logs|
    decreases |logs|
  {
    if logs != [] {
      var init := logs[..|logs| - 1];
      var l := logs[|logs| - 1];
      assert logs == init + [l];
      SentPendingBound(init);
      Seqs.FilterAppend(init, [l], IsSent);
      Seqs.FilterAppend(init, [l], IsPending);
      Seqs.FilterSingle(l, IsSent);
      Seqs.FilterSingle(l, IsPending);
    }
  }

  /** A new log moves exactly the counter of its status (a failed one neither). */
  lemma LogCounts(logs: seq<MessageLog>, l: MessageLog)
    ensures SentCount(logs + [l]) == SentCount(logs) + (if IsSent(l) then 1 else 0)
    ensures PendingCount(logs + [l]) == PendingCount(logs) + (if IsPending(l) then 1 else 0)
  {
    Seqs.FilterAppend(logs, [l], IsSent);
    Seqs.FilterAppend(logs, [l], IsPending);
    Seqs.FilterSingle(l, IsSent);
    Seqs.FilterSingle(l, IsPending);
  }

  /** A log that changes from pending to sent moves one unit between the counters. */
  lemma MarkSentMoves(a: seq<MessageLog>, l: MessageLog, b: seq<MessageLog>, s: LogStatus)
    requires l.status == Pending && (s == Sent || s == Delivered)
    ensures SentCount(a + [l.(status := s)] + b) == SentCount(a + [l] + b) + 1
    ensures PendingCount(a + [l.(status := s)] + b) + 1 == PendingCount(a + [l] + b)
  {
    var l' := l.(status := s);
    Seqs.FilterAppend(a + [l], b, IsSent);
    Seqs.FilterAppend(a + [l'], b, IsSent);
    Seqs.FilterAppend(a + [l], b, IsPending);
    Seqs.FilterAppend(a + [l'], b, IsPending);
    LogCounts(a, l);
    LogCounts(a, l');
  }
}
