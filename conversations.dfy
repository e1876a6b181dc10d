/** The inbox page (src/pages/Conversations.tsx): naming a thread after a known
    contact, its preview line, the search over threads, and what opening a
    thread does. */
module Conversations {
  import opened Wrappers
  import opened Domain
  import Seqs
  import Text
  import Feed

  /** The contact test of `getContactName`: one digit string holds the other. */
  predicate SameNumber(c: Contact, phoneNumber: string) {
    Text.Contains(Text.Digits(c.phone), Text.Digits(phoneNumber)) ||
    Text.Contains(Text.Digits(phoneNumber), Text.Digits(c.phone))
  }

  /** `getContactName`: the name of the first matching contact, or the number
      itself when none matches or that name is empty. */
  function ContactName(contacts: seq<Contact>, phoneNumber: string): (r: string)
    ensures (forall k :: 0 <= k < |contacts| ==> !SameNumber(contacts[k], phoneNumber)) ==> r == phoneNumber
    ensures forall k ::
              (0 <= k < |contacts| && SameNumber(contacts[k], phoneNumber)
               && forall j :: 0 <= j < k ==> !SameNumber(contacts[j], phoneNumber)) ==>
              r == if contacts[k].name != "" then contacts[k].name else phoneNumber
  {
    var c := Seqs.Find(contacts, (c: Contact) => SameNumber(c, phoneNumber));
    if c.Some? && c.value.name != "" then c.value.name else phoneNumber
  }

  /** A contact stored under the very number names the thread, unless an earlier
      contact matches too. */
  lemma ContactNameExact(contacts: seq<Contact>, c: Contact, phoneNumber: string)
    requires c.phone == phoneNumber && c.name != ""
    requires forall j :: 0 <= j < |contacts| ==> !SameNumber(contacts[j], phoneNumber)
    ensures ContactName(contacts + [c], phoneNumber) == c.name
  {
    var all := contacts + [c];
    assert Text.OccursAt(Text.Digits(phoneNumber), Text.Digits(phoneNumber), 0);
    assert SameNumber(c, phoneNumber);
    assert all[|contacts|] == c;
    assert forall j :: 0 <= j < |contacts| ==> all[j] == contacts[j];
  }

  /** `getLastMessage`: the content of the thread's newest message, or nothing. */
  function LastMessage(t: Feed.Thread): (r: string)
    ensures t.messages == [] ==> r == ""
    ensures t.messages != [] ==> r == t.messages[|t.messages| - 1].content
  {
    if t.messages == [] then "" else t.messages[|t.messages| - 1].content
  }

  /** A thread found by a search: by contact name, number or preview, all lower-cased. */
  predicate ThreadMatches(contacts: seq<Contact>, query: string, t: Feed.Thread) {
    query == "" ||
    var q := Text.Lower(query);
    Text.Contains(Text.Lower(ContactName(contacts, t.phoneNumber)), q) ||
    Text.Contains(Text.Lower(t.phoneNumber), q) ||
    Text.Contains(Text.Lower(LastMessage(t)), q)
  }

  /** `filteredConversations`: the threads a search keeps, in their order. */
  function FilteredConversations(contacts: seq<Contact>, threads: seq<Feed.Thread>, query: string)
    : (r: seq<Feed.Thread>)
    ensures Seqs.IsSubsequence(r, threads)
    ensures forall k :: 0 <= k < |r| ==> ThreadMatches(contacts, query, r[k])
    ensures forall k :: 0 <= k < |threads| && ThreadMatches(contacts, query, threads[k]) ==> threads[k] in r
    ensures forall t :: multiset(r)[t] == if ThreadMatches(contacts, query, t) then multiset(threads)[t] else 0
  {
    var p := (t: Feed.Thread) => ThreadMatches(contacts, query, t);
    Seqs.FilterIsSubsequence(threads, p);
    Seqs.FilterMultisets(threads, p);
    Seqs.Filter(threads, p)
  }

  /** An empty search keeps every thread. */
  lemma EmptySearchKeepsAll(contacts: seq<Contact>, threads: seq<Feed.Thread>)
    ensures FilteredConversations(contacts, threads, "") == threads
  {
    Seqs.FilterAll(threads, t => ThreadMatches(contacts, "", t));
  }

  /** `handleSelectConversation`: the thread becomes the selection, and its number
      is marked read exactly when it has unread messages. */
  function SelectConversation(t: Feed.Thread): (r: (Feed.Thread, Option<string>))
    ensures r.0 == t
    ensures r.1.Some? <==> t.unreadCount > 0
    ensures r.1.Some? ==> r.1.value == t.phoneNumber
  {
    (t, if t.unreadCount > 0 then Some(t.phoneNumber) else None)
  }

  /** The selection kept in step with the live threads: the thread of the same
      number replaces it when there is one. */
  function Resync(selected: Option<Feed.Thread>, threads: seq<Feed.Thread>): (r: Option<Feed.Thread>)
    ensures selected.None? ==> r.None?
    ensures selected.Some? ==> r.Some? && r.value.phoneNumber == selected.value.phoneNumber
    ensures selected.Some? && r.value != selected.value ==> r.value in threads
  {
    if selected.None? then None
    else
      var updated := Seqs.Find(threads, (t: Feed.Thread) => t.phoneNumber == selected.value.phoneNumber);
      if updated.Some? then updated else selected
  }

  /** A thread of the selected number in the live list is what the selection
      becomes. */
  lemma ResyncListed(t: Feed.Thread, threads: seq<Feed.Thread>, i: nat)
    requires i < |threads| && threads[i].phoneNumber == t.phoneNumber
    ensures Resync(Some(t), threads).value in threads
  {
    var f := Seqs.Find(threads, (u: Feed.Thread) => u.phoneNumber == t.phoneNumber);
    assert f.Some?;
  }

  /** Opening a thread with unread messages and marking them read leaves the
      selection, once back in step with the feed, with nothing unread. */
  lemma OpeningClearsUnread(ms: seq<Feed.FeedMessage>, t: Feed.Thread)
    requires t.unreadCount > 0
    requires exists k :: 0 <= k < |ms| && ms[k].phoneNumber == t.phoneNumber
    ensures var marked := Feed.MarkAsRead(ms, SelectConversation(t).1.value, false);
      Resync(Some(t), Feed.Threads(marked)).value.unreadCount == 0
  {
    var phone := t.phoneNumber;
    assert SelectConversation(t).1 == Some(phone);
    var marked := Feed.MarkAsRead(ms, phone, false);
    assert phone in Feed.Phones(marked) by {
      var k :| 0 <= k < |ms| && ms[k].phoneNumber == phone;
      assert marked[k].phoneNumber == phone;
      assert Feed.Occurs(marked, phone);
    }
    var threads := Feed.Threads(marked);
    var i: nat :| i < |threads| && threads[i].phoneNumber == phone by {
      Feed.ThreadOfListed(marked, phone);
      var th := Feed.ThreadOf(marked, phone);
      assert th.phoneNumber == phone;
    }
    ResyncListed(t, threads, i);
    Feed.MarkedThreadRead(ms, phone, Resync(Some(t), threads).value);
  }
}
