/** The message-log page (src/pages/Logs.tsx): the search box and the status
    select over the store's delivery logs. */
module Logs {
  import opened Domain
  import Seqs
  import Text

  /** The status select: every status, or exactly one. */
  datatype StatusFilter = AllStatuses | OnlyStatus(status: LogStatus)

  /** The search test: the contact name and the message case-insensitively, the
      phone number as typed. */
  predicate MatchesSearch(log: MessageLog, search: string) {
    Text.Contains(Text.Lower(log.contactName), Text.Lower(search)) ||
    Text.Contains(log.contactPhone, search) ||
    Text.Contains(Text.Lower(log.message), Text.Lower(search))
  }

  predicate MatchesStatus(log: MessageLog, filter: StatusFilter) {
    filter.AllStatuses? || log.status == filter.status
  }

  predicate Shown(log: MessageLog, search: string, filter: StatusFilter) {
    MatchesSearch(log, search) && MatchesStatus(log, filter)
  }

  /** `filteredLogs`: the logs passing both tests, in the store's order. */
  function FilteredLogs(logs: seq<MessageLog>, search: string, filter: StatusFilter): (r: seq<MessageLog>)
    ensures Seqs.IsSubsequence(r, logs)
    ensures forall k :: 0 <= k < |r| ==> MatchesSearch(r[k], search)
    ensures filter.OnlyStatus? ==> forall k :: 0 <= k < |r| ==> r[k].status == filter.status
    ensures forall k :: 0 <= k < |logs| && MatchesSearch(logs[k], search) && MatchesStatus(logs[k], filter) ==>
              logs[k] in r
    ensures forall l :: multiset(r)[l] == if Shown(l, search, filter) then multiset(logs)[l] else 0
  {
    var p := (l: MessageLog) => Shown(l, search, filter);
    Seqs.FilterIsSubsequence(logs, p);
    Seqs.FilterMultisets(logs, p);
    Seqs.Filter(logs, p)
  }

  /** The empty search matches every log. */
  lemma EmptySearchMatches(log: MessageLog)
    ensures MatchesSearch(log, "")
  {
    Text.ContainsEmpty(Text.Lower(log.contactName));
  }

  /** With the page's initial state (no search, all statuses) every log is listed. */
  lemma InitialShowsAll(logs: seq<MessageLog>)
    ensures FilteredLogs(logs, "", AllStatuses) == logs
  {
    forall k | 0 <= k < |logs| ensures Shown(logs[k], "", AllStatuses) {
      EmptySearchMatches(logs[k]);
    }
    Seqs.FilterAll(logs, l => Shown(l, "", AllStatuses));
  }

  /** Choosing a status narrows the searched list to exactly its logs of that status. */
  lemma StatusNarrows(logs: seq<MessageLog>, search: string, status: LogStatus)
    ensures FilteredLogs(logs, search, OnlyStatus(status)) ==
            Seqs.Filter(FilteredLogs(logs, search, AllStatuses), (l: MessageLog) => l.status == status)
  {
    var all := FilteredLogs(logs, search, AllStatuses);
    assert forall l :: Shown(l, search, AllStatuses) == MatchesSearch(l, search);
    Seqs.FilterConj(logs, (l: MessageLog) => l.status == status, l => Shown(l, search, AllStatuses),
                    l => Shown(l, search, OnlyStatus(status)));
  }
}
