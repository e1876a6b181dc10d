/** The campaigns page (src/pages/Campaigns.tsx): choosing recipients, creating
    a draft campaign, and the send loop that opens one WhatsApp Web link per
    recipient it can resolve, logs it as sent and advances the send count. */
module Campaigns {
  import opened Wrappers
  import opened Domain
  import Seqs
  import Text
  import Store

  // ---------------------------------------------------------------- recipients

  /** `toggleContact`: an absent id is appended, a present one removed. */
  function ToggleContact(selected: seq<string>, id: string): (r: seq<string>)
    ensures id in r <==> id !in selected
    ensures forall x :: x != id ==> (x in r <==> x in selected)
    ensures id !in selected ==> r == selected + [id]
    ensures id in selected ==> Seqs.IsSubsequence(r, selected)
    ensures id in selected ==> forall x :: multiset(r)[x] == if x != id then multiset(selected)[x] else 0
  {
    var keep := (x: string) => x != id;
    if id in selected then
      Seqs.FilterIsSubsequence(selected, keep);
      Seqs.FilterMultisets(selected, keep);
      Seqs.Filter(selected, keep)
    else selected + [id]
  }

  /** Unticking a contact takes it out where it stood and leaves the others in order. */
  lemma ToggleRemovesInPlace(before: seq<string>, id: string, after: seq<string>)
    requires id !in before && id !in after
    ensures ToggleContact(before + [id] + after, id) == before + after
  {
    var keep := (x: string) => x != id;
    var s := before + [id] + after;
    assert s[|before|] == id;
    assert ToggleContact(s, id) == Seqs.Filter(s, keep);
    assert Seqs.Filter(before + [id], keep) == before by {
      Seqs.FilterAppend(before, [id], keep);
      Seqs.FilterSingle(id, keep);
      Seqs.FilterKeepsAll(before, keep);
    }
    assert Seqs.Filter(after, keep) == after by {
      Seqs.FilterKeepsAll(after, keep);
    }
    Seqs.FilterAppend(before + [id], after, keep);
  }

  /** Ticking a contact and unticking it again restores the selection. */
  lemma ToggleTwice(selected: seq<string>, id: string)
    requires id !in selected
    ensures ToggleContact(ToggleContact(selected, id), id) == selected
  {
    var keep := (x: string) => x != id;
    var once := selected + [id];
    assert ToggleContact(once, id) == Seqs.Filter(once, keep);
    Seqs.FilterAppend(selected, [id], keep);
    Seqs.FilterSingle(id, keep);
    Seqs.FilterKeepsAll(selected, keep);
  }

  /** The ids of the listed contacts, in store order. */
  function ContactIds(contacts: seq<Contact>): (r: seq<string>)
    ensures |r| == |contacts| && forall k :: 0 <= k < |contacts| ==> r[k] == contacts[k].id
  {
    Seqs.Map(contacts, (c: Contact) => c.id)
  }

  /** `selectAllContacts`: clears a selection as long as the contact list, else
      selects every contact. Only the lengths are compared. */
  function SelectAllContacts(selected: seq<string>, contacts: seq<Contact>): (r: seq<string>)
    ensures |selected| == |contacts| ==> r == []
    ensures |selected| != |contacts| ==> r == ContactIds(contacts)
  {
    if |selected| == |contacts| then [] else ContactIds(contacts)
  }

  /** Pressing the button twice from a partial selection ends with nothing selected. */
  lemma SelectAllTwice(selected: seq<string>, contacts: seq<Contact>)
    requires |selected| != |contacts|
    ensures SelectAllContacts(SelectAllContacts(selected, contacts), contacts) == []
  {
  }

  // ---------------------------------------------------------------- create dialog

  datatype CampaignForm = CampaignForm(name: string, message: string, templateId: string)

  const EmptyForm := CampaignForm("", "", "")

  /** The dialog's state: the form, the ticked recipients and whether it is open. */
  datatype CreateDialog = CreateDialog(form: CampaignForm, selected: seq<string>, open: bool)

  const FillAll := "Please fill all fields and select at least one contact."

  /** `handleTemplateSelect`: a known template fills the message and records its
      id; an unknown id leaves the form as it was. */
  function SelectTemplate(form: CampaignForm, templates: seq<MessageTemplate>, templateId: string): (r: CampaignForm)
    ensures (forall k :: 0 <= k < |templates| ==> templates[k].id != templateId) ==> r == form
    ensures forall k ::
              (0 <= k < |templates| && templates[k].id == templateId
               && forall j :: 0 <= j < k ==> templates[j].id != templateId) ==>
              r == CampaignForm(form.name, templates[k].content, templateId)
  {
    var t := Seqs.Find(templates, (t: MessageTemplate) => t.id == templateId);
    if t.Some? then CampaignForm(form.name, t.value.content, templateId) else form
  }

  /** What `handleCreate` hands to `addCampaign`: a draft with the selection as
      recipients, or the validation error. The template id of the form is not
      passed on. */
  function CampaignRequest(form: CampaignForm, selected: seq<string>): (r: Result<NewCampaign, string>)
    ensures r.Failure? <==> Text.IsBlank(form.name) || Text.IsBlank(form.message) || selected == []
    ensures r.Failure? ==> r.error == FillAll
    ensures r.Success? ==> r.value.name == form.name && r.value.message == form.message
    ensures r.Success? ==> r.value.status == Draft && r.value.contacts == selected
    ensures r.Success? ==> r.value.totalCount == |selected| && r.value.template.None? && r.value.scheduledAt.None?
  {
    Text.TrimEmptyIffBlank(form.name);
    Text.TrimEmptyIffBlank(form.message);
    if Text.Trim(form.name) == [] || Text.Trim(form.message) == [] || |selected| == 0 then Failure(FillAll)
    else Success(NewCampaign(form.name, Draft, selected, None, form.message, None, |selected|))
  }

  /** `handleCreate`: an invalid dialog stays as it is and the store is
      untouched; a valid one adds one draft campaign and the dialog closes empty. */
  method SubmitCampaign(store: Store.AppStore, dialog: CreateDialog, id: string, now: int)
    returns (next: CreateDialog, error: Option<string>)
    modifies store
    ensures var req := CampaignRequest(dialog.form, dialog.selected);
      req.Failure? ==> error == Some(req.error) && next == dialog && store.campaigns == old(store.campaigns)
    ensures var req := CampaignRequest(dialog.form, dialog.selected);
      req.Success? ==> error.None? && next == CreateDialog(EmptyForm, [], false)
    ensures var req := CampaignRequest(dialog.form, dialog.selected);
      req.Success? ==> store.campaigns == old(store.campaigns) + [Store.StampCampaign(req.value, id, now)]
    ensures store.contacts == old(store.contacts) && store.templates == old(store.templates)
    ensures store.logs == old(store.logs) && store.settings == old(store.settings)
  {
    var req := CampaignRequest(dialog.form, dialog.selected);
    if req.Failure? {
      next := dialog;
      error := Some(req.error);
    } else {
      store.AddCampaign(req.value, id, now);
      next := CreateDialog(EmptyForm, [], false);
      error := None;
    }
  }

  // ---------------------------------------------------------------- send loop

  /** The placeholder every message may carry. */
  const NamePlaceholder := "{{name}}"

  /** `message.replace(/\{\{name\}\}/g, name)`. */
  function Personalize(message: string, name: string): string {
    Text.ReplaceAll(message, NamePlaceholder, name)
  }

  /** A message without the placeholder is sent as it is. */
  lemma PersonalizePlain(message: string, name: string)
    requires !Text.Contains(message, NamePlaceholder)
    ensures Personalize(message, name) == message
  {
    Text.ReplaceAllAbsent(message, NamePlaceholder, name);
  }

  /** A message that opens with the placeholder opens with the name. */
  lemma PersonalizeGreeting(rest: string, name: string)
    ensures Personalize(NamePlaceholder + rest, name) == name + Personalize(rest, name)
  {
    Text.ReplaceAllPrefix(NamePlaceholder, rest, name);
  }

  /** A WhatsApp Web link the loop opens: the dialled digits and the text. */
  datatype Link = Link(phone: string, text: string)

  /** A wait of `millis` milliseconds after the recipient at index `after`. */
  datatype Pause = Pause(after: nat, millis: int)

  /** The contact a recipient id resolves to, in the contact list the loop read. */
  function Recipient(c: Campaign, contacts: seq<Contact>, i: nat): Option<Contact>
    requires i < |c.contacts|
  {
    Store.FindContact(contacts, c.contacts[i])
  }

  /** The recipient indices below `n` that resolve to a contact, in order. */
  function Resolved(c: Campaign, contacts: seq<Contact>, n: nat): seq<nat>
    requires n <= |c.contacts|
  {
    if n == 0 then []
    else Resolved(c, contacts, n - 1) + (if Recipient(c, contacts, n - 1).Some? then [n - 1] else [])
  }

  /** The link opened for one resolved recipient. */
  function LinkFor(c: Campaign, contact: Contact): Link {
    Link(Text.Digits(contact.phone), Personalize(c.message, contact.name))
  }

  /** The log entry added for one resolved recipient. */
  function SentLog(c: Campaign, contact: Contact, sentAt: int): NewLog {
    NewLog(Some(c.id), contact.id, contact.name, contact.phone, Personalize(c.message, contact.name), Sent, sentAt, None)
  }

  /** The links opened for the first `n` recipients. */
  function Opened(c: Campaign, contacts: seq<Contact>, n: nat): seq<Link>
    requires n <= |c.contacts|
  {
    if n == 0 then []
    else
      var r := Recipient(c, contacts, n - 1);
      Opened(c, contacts, n - 1) + (if r.Some? then [LinkFor(c, r.value)] else [])
  }

  /** The log entries for the first `n` recipients, oldest first; entry `i`
      takes its id and time from the recipient's index. */
  function SentLogs(c: Campaign, contacts: seq<Contact>, n: nat, logIds: nat -> string, clock: nat -> int): seq<MessageLog>
    requires n <= |c.contacts|
  {
    if n == 0 then []
    else
      var r := Recipient(c, contacts, n - 1);
      SentLogs(c, contacts, n - 1, logIds, clock)
        + (if r.Some? then [Store.StampLog(SentLog(c, r.value, clock(n - 1)), logIds(n - 1))] else [])
  }

  /** The pauses taken while processing the first `n` recipients. */
  function Pauses(c: Campaign, contacts: seq<Contact>, n: nat, delay: int): seq<Pause>
    requires n <= |c.contacts|
  {
    if n == 0 then []
    else
      var r := Recipient(c, contacts, n - 1);
      Pauses(c, contacts, n - 1, delay)
        + (if r.Some? && n - 1 < |c.contacts| - 1 then [Pause(n - 1, delay * 1000)] else [])
  }

  /** The index of the last resolved recipient below `n`. */
  function LastSent(c: Campaign, contacts: seq<Contact>, n: nat): Option<nat>
    requires n <= |c.contacts|
  {
    if n == 0 then None
    else if Recipient(c, contacts, n - 1).Some? then Some(n - 1)
    else LastSent(c, contacts, n - 1)
  }

  /** The campaign patch the loop has applied so far: the status it set and, once
      a recipient resolved, the send count one past that recipient's index. */
  function Progress(status: CampaignStatus, last: Option<nat>): CampaignPatch {
    CampaignPatch(None, None, Some(status), None, None, None, None,
                  if last.Some? then Some(last.value + 1) else None, None, None)
  }

  // What processing recipient `i` adds to each output.

  lemma StepResolved(c: Campaign, contacts: seq<Contact>, i: nat)
    requires i < |c.contacts|
    ensures Resolved(c, contacts, i + 1)
            == Resolved(c, contacts, i) + if Recipient(c, contacts, i).Some? then [i] else []
  {
  }

  lemma StepOpened(c: Campaign, contacts: seq<Contact>, i: nat)
    requires i < |c.contacts|
    ensures var r := Recipient(c, contacts, i);
      Opened(c, contacts, i + 1) == Opened(c, contacts, i) + if r.Some? then [LinkFor(c, r.value)] else []
  {
  }

  lemma StepLogs(c: Campaign, contacts: seq<Contact>, i: nat, logIds: nat -> string, clock: nat -> int)
    requires i < |c.contacts|
    ensures var r := Recipient(c, contacts, i);
      SentLogs(c, contacts, i + 1, logIds, clock) == SentLogs(c, contacts, i, logIds, clock)
        + if r.Some? then [Store.StampLog(SentLog(c, r.value, clock(i)), logIds(i))] else []
  {
  }

  lemma StepPauses(c: Campaign, contacts: seq<Contact>, i: nat, delay: int)
    requires i < |c.contacts|
    ensures Pauses(c, contacts, i + 1, delay) == Pauses(c, contacts, i, delay)
      + if Recipient(c, contacts, i).Some? && i < |c.contacts| - 1 then [Pause(i, delay * 1000)] else []
  {
  }

  lemma StepLast(c: Campaign, contacts: seq<Contact>, i: nat)
    requires i < |c.contacts|
    ensures LastSent(c, contacts, i + 1)
            == if Recipient(c, contacts, i).Some? then Some(i) else LastSent(c, contacts, i)
  {
  }

  lemma ProgressThenCount(status: CampaignStatus, last: Option<nat>, i: nat)
    ensures ThenPatch(Progress(status, last), SentCountPatch(i + 1)) == Progress(status, Some(i))
  {
  }

  lemma ProgressThenStatus(status: CampaignStatus, last: Option<nat>, next: CampaignStatus)
    ensures ThenPatch(Progress(status, last), StatusPatch(next)) == Progress(next, last)
  {
  }

  /** The resolved indices are below `n` and each of them resolves. */
  lemma {:induction false} ResolvedSound(c: Campaign, contacts: seq<Contact>, n: nat)
    requires n <= |c.contacts|
    ensures var r := Resolved(c, contacts, n);
      forall k :: 0 <= k < |r| ==> r[k] < n && Recipient(c, contacts, r[k]).Some?
    decreases n
  {
    if n > 0 {
      ResolvedSound(c, contacts, n - 1);
      StepResolved(c, contacts, n - 1);
    }
  }

  /** The resolved indices are strictly increasing: recipient order. */
  lemma {:induction false} ResolvedIncreasing(c: Campaign, contacts: seq<Contact>, n: nat)
    requires n <= |c.contacts|
    ensures var r := Resolved(c, contacts, n);
      forall a, b :: 0 <= a < b < |r| ==> r[a] < r[b]
    decreases n
  {
    if n > 0 {
      ResolvedIncreasing(c, contacts, n - 1);
      ResolvedSound(c, contacts, n - 1);
      StepResolved(c, contacts, n - 1);
    }
  }

  /** Every recipient below `n` that resolves is among the resolved indices. */
  lemma {:induction false} ResolvedComplete(c: Campaign, contacts: seq<Contact>, n: nat)
    requires n <= |c.contacts|
    ensures forall i :: 0 <= i < n && Recipient(c, contacts, i).Some? ==> i in Resolved(c, contacts, n)
    decreases n
  {
    if n > 0 {
      ResolvedComplete(c, contacts, n - 1);
      StepResolved(c, contacts, n - 1);
    }
  }

  /** One link and one `sent` log per resolved recipient, in recipient order:
      the `k`-th of each belongs to the `k`-th resolved recipient. */
  lemma {:induction false} OneEachPerResolved(c: Campaign, contacts: seq<Contact>, n: nat, logIds: nat -> string, clock: nat -> int)
    requires n <= |c.contacts|
    ensures var r := Resolved(c, contacts, n);
      |Opened(c, contacts, n)| == |r| && |SentLogs(c, contacts, n, logIds, clock)| == |r|
    ensures var r := Resolved(c, contacts, n);
      forall k :: 0 <= k < |r| ==>
        (r[k] < |c.contacts| && Recipient(c, contacts, r[k]).Some?
         && Opened(c, contacts, n)[k] == LinkFor(c, Recipient(c, contacts, r[k]).value)
         && SentLogs(c, contacts, n, logIds, clock)[k]
            == Store.StampLog(SentLog(c, Recipient(c, contacts, r[k]).value, clock(r[k])), logIds(r[k])))
    decreases n
  {
    if n > 0 {
      var i := n - 1;
      OneEachPerResolved(c, contacts, i, logIds, clock);
      StepResolved(c, contacts, i);
      StepOpened(c, contacts, i);
      StepLogs(c, contacts, i, logIds, clock);
      var r := Resolved(c, contacts, n);
      var r0 := Resolved(c, contacts, i);
      forall k | 0 <= k < |r|
        ensures r[k] < |c.contacts| && Recipient(c, contacts, r[k]).Some?
        ensures Opened(c, contacts, n)[k] == LinkFor(c, Recipient(c, contacts, r[k]).value)
        ensures SentLogs(c, contacts, n, logIds, clock)[k]
                == Store.StampLog(SentLog(c, Recipient(c, contacts, r[k]).value, clock(r[k])), logIds(r[k]))
      {
        if k < |r0| {
          assert r[k] == r0[k];
          assert Opened(c, contacts, n)[k] == Opened(c, contacts, i)[k];
          assert SentLogs(c, contacts, n, logIds, clock)[k] == SentLogs(c, contacts, i, logIds, clock)[k];
        } else {
          assert r[k] == i;
        }
      }
    }
  }

  /** Every logged entry is a `sent` entry of this campaign whose message is the
      campaign's message personalised with the contact's name. */
  lemma {:induction false} LogsAreSent(c: Campaign, contacts: seq<Contact>, n: nat, logIds: nat -> string, clock: nat -> int)
    requires n <= |c.contacts|
    ensures var logs := SentLogs(c, contacts, n, logIds, clock);
      forall k :: 0 <= k < |logs| ==>
        (logs[k].status == Sent && logs[k].campaignId == Some(c.id)
         && logs[k].error.None? && logs[k].message == Personalize(c.message, logs[k].contactName))
    decreases n
  {
    if n > 0 {
      LogsAreSent(c, contacts, n - 1, logIds, clock);
      StepLogs(c, contacts, n - 1, logIds, clock);
    }
  }

  /** A pause of `delay` seconds follows only a resolved recipient that is not
      the last one. */
  lemma {:induction false} PausesBetween(c: Campaign, contacts: seq<Contact>, n: nat, delay: int)
    requires n <= |c.contacts|
    ensures var ps := Pauses(c, contacts, n, delay);
      forall k :: 0 <= k < |ps| ==>
        (ps[k].after < |c.contacts| - 1 && ps[k].after < n
         && Recipient(c, contacts, ps[k].after).Some? && ps[k].millis == delay * 1000)
    decreases n
  {
    if n > 0 {
      PausesBetween(c, contacts, n - 1, delay);
      StepPauses(c, contacts, n - 1, delay);
    }
  }

  /** Every resolved recipient except the last one is followed by a pause. */
  lemma {:induction false} PausesComplete(c: Campaign, contacts: seq<Contact>, n: nat, delay: int)
    requires n <= |c.contacts|
    ensures var ps := Pauses(c, contacts, n, delay);
      forall i :: 0 <= i < n && i < |c.contacts| - 1 && Recipient(c, contacts, i).Some? ==>
        exists k :: 0 <= k < |ps| && ps[k].after == i
    decreases n
  {
    if n > 0 {
      var last := n - 1;
      PausesComplete(c, contacts, last, delay);
      StepPauses(c, contacts, last, delay);
      var ps := Pauses(c, contacts, n, delay);
      var prev := Pauses(c, contacts, last, delay);
      forall i | 0 <= i < n && i < |c.contacts| - 1 && Recipient(c, contacts, i).Some?
        ensures exists k :: 0 <= k < |ps| && ps[k].after == i
      {
        if i < last {
          var k :| 0 <= k < |prev| && prev[k].after == i;
          assert ps[k] == prev[k];
        } else {
          assert ps[|ps| - 1].after == i;
        }
      }
    }
  }

  /** The last resolved index is the last entry of the resolved list. */
  lemma {:induction false} LastSentIsLastResolved(c: Campaign, contacts: seq<Contact>, n: nat)
    requires n <= |c.contacts|
    ensures var r := Resolved(c, contacts, n);
      LastSent(c, contacts, n) == if r == [] then None else Some(r[|r| - 1])
    decreases n
  {
    if n > 0 {
      LastSentIsLastResolved(c, contacts, n - 1);
    }
  }

  /** What the loop leaves on every campaign carrying the id: `completed`, and
      the send count one past the last resolved recipient (unchanged when none
      resolved). Campaigns with other ids are untouched. */
  lemma Finished(cs: seq<Campaign>, id: string, last: Option<nat>)
    ensures var r := Store.UpdateCampaigns(cs, id, Progress(Completed, last));
      |r| == |cs| && forall k :: 0 <= k < |cs| ==>
        if cs[k].id == id then
          r[k] == cs[k].(status := Completed, sentCount := if last.Some? then last.value + 1 else cs[k].sentCount)
        else r[k] == cs[k]
  {
  }

  /** One resolved recipient: open its link, add its `sent` log and set the
      send count to one past its index. */
  method Deliver(store: Store.AppStore, c: Campaign, contact: Contact, i: nat, logId: string, sentAt: int)
    returns (link: Link)
    modifies store
    ensures link == LinkFor(c, contact)
    ensures store.logs == Store.PushCapped(old(store.logs), Store.StampLog(SentLog(c, contact, sentAt), logId), Store.LogCap)
    ensures store.campaigns == Store.UpdateCampaigns(old(store.campaigns), c.id, SentCountPatch(i + 1))
    ensures store.contacts == old(store.contacts) && store.templates == old(store.templates)
    ensures store.settings == old(store.settings)
  {
    var text := Personalize(c.message, contact.name);
    link := Link(Text.Digits(contact.phone), text);
    store.AddLog(NewLog(Some(c.id), contact.id, contact.name, contact.phone, text, Sent, sentAt, None), logId);
    store.UpdateCampaign(c.id, SentCountPatch(i + 1));
  }

  /** The body of the send loop for recipient `i`: resolve the id in the
      contact list read at the start and, when it resolves, deliver to it and
      pause unless it is the last recipient. Each output grows as its
      specification function does from `i` to `i + 1`. */
  method Process(store: Store.AppStore, c: Campaign, contacts: seq<Contact>, i: nat, delay: int,
                 logIds: nat -> string, clock: nat -> int, ghost logs0: seq<MessageLog>, ghost campaigns0: seq<Campaign>,
                 links: seq<Link>, pauses: seq<Pause>)
    returns (links': seq<Link>, pauses': seq<Pause>)
    requires i < |c.contacts|
    requires links == Opened(c, contacts, i) && pauses == Pauses(c, contacts, i, delay)
    requires store.logs == Store.PushAll(logs0, SentLogs(c, contacts, i, logIds, clock), Store.LogCap)
    requires store.campaigns == Store.UpdateCampaigns(campaigns0, c.id, Progress(Sending, LastSent(c, contacts, i)))
    modifies store
    ensures links' == Opened(c, contacts, i + 1) && pauses' == Pauses(c, contacts, i + 1, delay)
    ensures store.logs == Store.PushAll(logs0, SentLogs(c, contacts, i + 1, logIds, clock), Store.LogCap)
    ensures store.campaigns == Store.UpdateCampaigns(campaigns0, c.id, Progress(Sending, LastSent(c, contacts, i + 1)))
    ensures store.contacts == old(store.contacts) && store.templates == old(store.templates)
    ensures store.settings == old(store.settings)
  {
    var contact := Store.FindContact(contacts, c.contacts[i]);
    assert contact == Recipient(c, contacts, i);
    StepOpened(c, contacts, i);
    StepLogs(c, contacts, i, logIds, clock);
    StepPauses(c, contacts, i, delay);
    StepLast(c, contacts, i);
    links' := links;
    pauses' := pauses;
    if contact.Some? {
      ghost var sent := SentLogs(c, contacts, i, logIds, clock);
      ghost var entry := Store.StampLog(SentLog(c, contact.value, clock(i)), logIds(i));
      Store.PushAllSnoc(logs0, sent, entry, Store.LogCap);
      ProgressThenCount(Sending, LastSent(c, contacts, i), i);
      Store.UpdateCampaignsTwice(campaigns0, c.id, Progress(Sending, LastSent(c, contacts, i)), SentCountPatch(i + 1));
      var link := Deliver(store, c, contact.value, i, logIds(i), clock(i));
      links' := links + [link];
      if i < |c.contacts| - 1 {
        pauses' := pauses + [Pause(i, delay * 1000)];
      }
    } else {
      assert SentLogs(c, contacts, i, logIds, clock) + [] == SentLogs(c, contacts, i, logIds, clock);
    }
  }

  /** `startCampaign`. An unknown campaign changes nothing. Otherwise the
      campaign found first supplies the recipients and the message, the contact
      list and the delay are read once, and every campaign with the id ends
      `completed`; the links opened, the pauses and the logs are those of the
      specification functions above. */
  method StartCampaign(store: Store.AppStore, campaignId: string, logIds: nat -> string, clock: nat -> int) returns (links: seq<Link>, pauses: seq<Pause>)
    modifies store
    ensures Store.FindCampaign(old(store.campaigns), campaignId).None? ==>
      links == [] && pauses == [] && store.campaigns == old(store.campaigns) && store.logs == old(store.logs)
    ensures var found := Store.FindCampaign(old(store.campaigns), campaignId);
      found.Some? ==> links == Opened(found.value, old(store.contacts), |found.value.contacts|)
    ensures var found := Store.FindCampaign(old(store.campaigns), campaignId);
      found.Some? ==> pauses == Pauses(found.value, old(store.contacts), |found.value.contacts|, old(store.settings.delayBetweenMessages))
    ensures var found := Store.FindCampaign(old(store.campaigns), campaignId);
      found.Some? ==> store.logs == Store.PushAll(old(store.logs),
        SentLogs(found.value, old(store.contacts), |found.value.contacts|, logIds, clock), Store.LogCap)
    ensures var found := Store.FindCampaign(old(store.campaigns), campaignId);
      found.Some? ==> store.campaigns == Store.UpdateCampaigns(old(store.campaigns), campaignId,
        Progress(Completed, LastSent(found.value, old(store.contacts), |found.value.contacts|)))
    ensures store.contacts == old(store.contacts) && store.templates == old(store.templates)
    ensures store.settings == old(store.settings)
  {
    var found := Store.FindCampaign(store.campaigns, campaignId);
    links := [];
    pauses := [];
    if found.None? {
      return;
    }
    var c := found.value;
    var contacts := store.contacts;
    var delay := store.settings.delayBetweenMessages;
    ghost var logs0 := store.logs;
    ghost var campaigns0 := store.campaigns;
    store.UpdateCampaign(campaignId, StatusPatch(Sending));
    var i := 0;
    while i < |c.contacts|
      invariant 0 <= i <= |c.contacts|
      invariant store.contacts == contacts && store.templates == old(store.templates)
      invariant store.settings == old(store.settings)
      invariant links == Opened(c, contacts, i)
      invariant pauses == Pauses(c, contacts, i, delay)
      invariant store.logs == Store.PushAll(logs0, SentLogs(c, contacts, i, logIds, clock), Store.LogCap)
      invariant store.campaigns == Store.UpdateCampaigns(campaigns0, campaignId, Progress(Sending, LastSent(c, contacts, i)))
    {
      links, pauses := Process(store, c, contacts, i, delay, logIds, clock, logs0, campaigns0, links, pauses);
      i := i + 1;
    }
    ProgressThenStatus(Sending, LastSent(c, contacts, i), Completed);
    Store.UpdateCampaignsTwice(campaigns0, campaignId, Progress(Sending, LastSent(c, contacts, i)), StatusPatch(Completed));
    store.UpdateCampaign(campaignId, StatusPatch(Completed));
  }
}
