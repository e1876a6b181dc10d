/** The application's state container (src/store/appStore.ts): five fields, each
    action replacing one of them. Generated ids and `new Date()` are parameters;
    persistence to `localStorage` is left out, and what `loadFromStorage` reads
    is given as a value. */
module Store {
  import opened Wrappers
  import opened Domain
  import Seqs

  /** Timestamp of `2024-01-01T00:00:00.000Z`, in milliseconds. */
  const SeedTime: int := 1704067200000

  const DefaultTemplates: seq<MessageTemplate> := [
    MessageTemplate("default-1", "Welcome Message",
      "Hello {{name}}! Welcome to our service. We're excited to have you!", SeedTime),
    MessageTemplate("default-2", "Promotion",
      "Hi {{name}}! \U{1F389} Don't miss our special offer this week. Use code SAVE20 for 20% off!", SeedTime)
  ]

  const DefaultSettings: Settings := Settings(3, 100, "My Business", "+1", None, None, None, None)

  /** How many log entries the store keeps. */
  const LogCap: nat := 500

  /** The persisted record as read back; a missing or falsy key is `None`. */
  datatype Stored = Stored(
    contacts: Option<seq<Contact>>,
    templates: Option<seq<MessageTemplate>>,
    campaigns: Option<seq<Campaign>>,
    logs: Option<seq<MessageLog>>,
    settings: Option<Settings>)

  function OrElse<T>(x: Option<T>, d: T): T {
    if x.Some? then x.value else d
  }

  /** Stored templates win only when there is at least one. */
  function TemplatesOrDefault(x: Option<seq<MessageTemplate>>): (r: seq<MessageTemplate>)
    ensures r != []
    ensures x.Some? && x.value != [] ==> r == x.value
    ensures x.None? || x.value == [] ==> r == DefaultTemplates
  {
    if x.Some? && |x.value| > 0 then x.value else DefaultTemplates
  }

  function StampContact(c: NewContact, id: string, now: int): (r: Contact)
    ensures r.id == id && r.createdAt == now
    ensures r.name == c.name && r.phone == c.phone && r.tags == c.tags
  {
    Contact(id, c.name, c.phone, c.tags, now)
  }

  /** `contacts.map(c => ({ ...c, id: generateId(), createdAt: new Date() }))`, each
      contact taking the id and the time at its own position. */
  function StampContacts(cs: seq<NewContact>, ids: seq<string>, times: seq<int>): (r: seq<Contact>)
    requires |ids| == |cs| && |times| == |cs|
    ensures |r| == |cs|
    ensures forall k :: 0 <= k < |cs| ==> r[k] == StampContact(cs[k], ids[k], times[k])
  {
    seq(|cs|, k requires 0 <= k < |cs| => StampContact(cs[k], ids[k], times[k]))
  }

  function StampTemplate(t: NewTemplate, id: string, now: int): (r: MessageTemplate)
    ensures r.id == id && r.createdAt == now && r.name == t.name && r.content == t.content
  {
    MessageTemplate(id, t.name, t.content, now)
  }

  function StampCampaign(c: NewCampaign, id: string, now: int): (r: Campaign)
    ensures r.id == id && r.createdAt == now && r.sentCount == 0
    ensures r.name == c.name && r.status == c.status && r.contacts == c.contacts
    ensures r.template == c.template && r.message == c.message
    ensures r.scheduledAt == c.scheduledAt && r.totalCount == c.totalCount
  {
    Campaign(id, c.name, c.status, c.contacts, c.template, c.message, c.scheduledAt, 0, c.totalCount, now)
  }

  function StampLog(l: NewLog, id: string): (r: MessageLog)
    ensures r.id == id && r.campaignId == l.campaignId && r.contactId == l.contactId
    ensures r.contactName == l.contactName && r.contactPhone == l.contactPhone
    ensures r.message == l.message && r.status == l.status && r.sentAt == l.sentAt
    ensures r.error == l.error
  {
    MessageLog(id, l.campaignId, l.contactId, l.contactName, l.contactPhone, l.message, l.status, l.sentAt, l.error)
  }

  /** `xs.filter(x => x.id !== id)` for contacts. */
  function ContactsWithout(cs: seq<Contact>, id: string): (r: seq<Contact>)
    ensures Seqs.IsSubsequence(r, cs)
    ensures forall k :: 0 <= k < |r| ==> r[k].id != id
    ensures forall k :: 0 <= k < |cs| && cs[k].id != id ==> cs[k] in r
    ensures forall c :: multiset(r)[c] == if c.id != id then multiset(cs)[c] else 0
  {
    var keep := (c: Contact) => c.id != id;
    Seqs.FilterIsSubsequence(cs, keep);
    Seqs.FilterMultisets(cs, keep);
    Seqs.Filter(cs, keep)
  }

  function TemplatesWithout(ts: seq<MessageTemplate>, id: string): (r: seq<MessageTemplate>)
    ensures Seqs.IsSubsequence(r, ts)
    ensures forall k :: 0 <= k < |r| ==> r[k].id != id
    ensures forall k :: 0 <= k < |ts| && ts[k].id != id ==> ts[k] in r
    ensures forall t :: multiset(r)[t] == if t.id != id then multiset(ts)[t] else 0
  {
    var keep := (t: MessageTemplate) => t.id != id;
    Seqs.FilterIsSubsequence(ts, keep);
    Seqs.FilterMultisets(ts, keep);
    Seqs.Filter(ts, keep)
  }

  /** `xs.map(x => x.id === id ? { ...x, ...patch } : x)` for contacts. */
  function UpdateContacts(cs: seq<Contact>, id: string, p: ContactPatch): (r: seq<Contact>)
    ensures |r| == |cs|
    ensures forall k :: 0 <= k < |cs| && cs[k].id == id ==> r[k] == PatchContact(cs[k], p)
    ensures forall k :: 0 <= k < |cs| && cs[k].id != id ==> r[k] == cs[k]
  {
    seq(|cs|, k requires 0 <= k < |cs| => if cs[k].id == id then PatchContact(cs[k], p) else cs[k])
  }

  function UpdateTemplates(ts: seq<MessageTemplate>, id: string, p: TemplatePatch): (r: seq<MessageTemplate>)
    ensures |r| == |ts|
    ensures forall k :: 0 <= k < |ts| && ts[k].id == id ==> r[k] == PatchTemplate(ts[k], p)
    ensures forall k :: 0 <= k < |ts| && ts[k].id != id ==> r[k] == ts[k]
  {
    seq(|ts|, k requires 0 <= k < |ts| => if ts[k].id == id then PatchTemplate(ts[k], p) else ts[k])
  }

  function UpdateCampaigns(cs: seq<Campaign>, id: string, p: CampaignPatch): (r: seq<Campaign>)
    ensures |r| == |cs|
    ensures forall k :: 0 <= k < |cs| && cs[k].id == id ==> r[k] == PatchCampaign(cs[k], p)
    ensures forall k :: 0 <= k < |cs| && cs[k].id != id ==> r[k] == cs[k]
  {
    seq(|cs|, k requires 0 <= k < |cs| => if cs[k].id == id then PatchCampaign(cs[k], p) else cs[k])
  }

  /** `[x, ...xs].slice(0, cap)`: the newest entry first, then as many of the old
      ones as still fit. */
  function PushCapped<T>(xs: seq<T>, x: T, cap: nat): (r: seq<T>)
    requires cap >= 1
    ensures |r| == if |xs| + 1 < cap then |xs| + 1 else cap
    ensures r[0] == x
    ensures r[1..] == xs[..|r| - 1]
  {
    var all := [x] + xs;
    var n := if |all| < cap then |all| else cap;
    assert all[..n][1..] == xs[..n - 1];
    all[..n]
  }

  /** Only the fields the patch names change in a contact. */
  lemma PatchContactFields(c: Contact, p: ContactPatch)
    ensures var r := PatchContact(c, p);
      (r.id == if p.id.Some? then p.id.value else c.id)
      && (r.name == if p.name.Some? then p.name.value else c.name)
      && (r.phone == if p.phone.Some? then p.phone.value else c.phone)
      && (r.tags == if p.tags.Some? then p.tags.value else c.tags)
      && (r.createdAt == if p.createdAt.Some? then p.createdAt.value else c.createdAt)
  {
  }

  /** A patch that names no field leaves a contact as it is. */
  lemma EmptyContactPatch(c: Contact)
    ensures PatchContact(c, ContactPatch(None, None, None, None, None)) == c
  {
  }

  /** The settings a patch does not mention keep their values. */
  lemma PatchSettingsKeeps(s: Settings, p: SettingsPatch)
    ensures p.delayBetweenMessages.None? ==> PatchSettings(s, p).delayBetweenMessages == s.delayBetweenMessages
    ensures p.maxMessagesPerDay.None? ==> PatchSettings(s, p).maxMessagesPerDay == s.maxMessagesPerDay
    ensures p.businessName.None? ==> PatchSettings(s, p).businessName == s.businessName
    ensures p.defaultCountryCode.None? ==> PatchSettings(s, p).defaultCountryCode == s.defaultCountryCode
    ensures p.phoneNumberId.None? ==> PatchSettings(s, p).phoneNumberId == s.phoneNumberId
    ensures p.businessAccountId.None? ==> PatchSettings(s, p).businessAccountId == s.businessAccountId
    ensures p.accessToken.None? ==> PatchSettings(s, p).accessToken == s.accessToken
    ensures p.apiVersion.None? ==> PatchSettings(s, p).apiVersion == s.apiVersion
  {
  }

  /** Two patches in sequence are one patch where the later one wins. */
  lemma PatchCampaignThen(c: Campaign, p: CampaignPatch, q: CampaignPatch)
    ensures PatchCampaign(PatchCampaign(c, p), q) == PatchCampaign(c, ThenPatch(p, q))
  {
  }

  /** Two updates of the same id are one update by the combined patch, as long as
      the first one keeps the id. */
  lemma UpdateCampaignsTwice(cs: seq<Campaign>, id: string, p: CampaignPatch, q: CampaignPatch)
    requires p.id.None?
    ensures UpdateCampaigns(UpdateCampaigns(cs, id, p), id, q) == UpdateCampaigns(cs, id, ThenPatch(p, q))
  {
    var once := UpdateCampaigns(cs, id, p);
    var twice := UpdateCampaigns(once, id, q);
    var both := UpdateCampaigns(cs, id, ThenPatch(p, q));
    forall k | 0 <= k < |cs|
      ensures twice[k] == both[k]
    {
      if cs[k].id == id {
        PatchCampaignThen(cs[k], p, q);
      }
    }
  }

  /** `c` stands in `cs` before any other entry with the id. */
  ghost predicate FirstContact(cs: seq<Contact>, id: string, c: Contact) {
    exists k :: 0 <= k < |cs| && cs[k] == c && forall j :: 0 <= j < k ==> cs[j].id != id
  }

  ghost predicate FirstCampaign(cs: seq<Campaign>, id: string, c: Campaign) {
    exists k :: 0 <= k < |cs| && cs[k] == c && forall j :: 0 <= j < k ==> cs[j].id != id
  }

  /** `contacts.find(c => c.id === id)`. */
  function FindContact(cs: seq<Contact>, id: string): (r: Option<Contact>)
    ensures r.None? <==> forall k :: 0 <= k < |cs| ==> cs[k].id != id
    ensures r.Some? ==> r.value.id == id && r.value in cs
    decreases |cs|
  {
    if cs == [] then None else if cs[0].id == id then Some(cs[0]) else FindContact(cs[1..], id)
  }

  /** `find` returns the first contact with the id. */
  lemma {:induction false} FindContactFirst(cs: seq<Contact>, id: string)
    ensures FindContact(cs, id).Some? ==> FirstContact(cs, id, FindContact(cs, id).value)
    decreases |cs|
  {
    if cs != [] && cs[0].id != id && FindContact(cs[1..], id).Some? {
      FindContactFirst(cs[1..], id);
      var k :| 0 <= k < |cs[1..]| && cs[1..][k] == FindContact(cs[1..], id).value
                && forall j :: 0 <= j < k ==> cs[1..][j].id != id;
      assert cs[k + 1] == FindContact(cs, id).value;
    } else if cs != [] && cs[0].id == id {
      assert cs[0] == FindContact(cs, id).value;
    }
  }

  /** `campaigns.find(c => c.id === id)`. */
  function FindCampaign(cs: seq<Campaign>, id: string): (r: Option<Campaign>)
    ensures r.None? <==> forall k :: 0 <= k < |cs| ==> cs[k].id != id
    ensures r.Some? ==> r.value.id == id && r.value in cs
    decreases |cs|
  {
    if cs == [] then None else if cs[0].id == id then Some(cs[0]) else FindCampaign(cs[1..], id)
  }

  /** `find` returns the first campaign with the id. */
  lemma {:induction false} FindCampaignFirst(cs: seq<Campaign>, id: string)
    ensures FindCampaign(cs, id).Some? ==> FirstCampaign(cs, id, FindCampaign(cs, id).value)
    decreases |cs|
  {
    if cs != [] && cs[0].id != id && FindCampaign(cs[1..], id).Some? {
      FindCampaignFirst(cs[1..], id);
      var k :| 0 <= k < |cs[1..]| && cs[1..][k] == FindCampaign(cs[1..], id).value
                && forall j :: 0 <= j < k ==> cs[1..][j].id != id;
      assert cs[k + 1] == FindCampaign(cs, id).value;
    } else if cs != [] && cs[0].id == id {
      assert cs[0] == FindCampaign(cs, id).value;
    }
  }

  /** `xs` after `addLog` for each of `ys`, in order. */
  function PushAll<T>(xs: seq<T>, ys: seq<T>, cap: nat): seq<T>
    requires cap >= 1
    decreases |ys|
  {
    if ys == [] then xs else PushCapped(PushAll(xs, ys[..|ys| - 1], cap), ys[|ys| - 1], cap)
  }

  lemma PushAllSnoc<T>(xs: seq<T>, ys: seq<T>, y: T, cap: nat)
    requires cap >= 1
    ensures PushAll(xs, ys + [y], cap) == PushCapped(PushAll(xs, ys, cap), y, cap)
  {
    assert (ys + [y])[..|ys|] == ys;
  }

  /** After at least one push the log holds the newest entries first and the
      older log behind them, cut to the cap. */
  lemma {:induction false} PushAllNewestFirst<T>(xs: seq<T>, ys: seq<T>, cap: nat)
    requires cap >= 1 && ys != []
    ensures var all := Seqs.Reverse(ys) + xs;
      PushAll(xs, ys, cap) == all[..if |all| < cap then |all| else cap]
    decreases |ys|
  {
    var init := ys[..|ys| - 1];
    var y := ys[|ys| - 1];
    var prev := Seqs.Reverse(init) + xs;
    var all := Seqs.Reverse(ys) + xs;
    assert all == [y] + prev;
    var n := if |all| < cap then |all| else cap;
    if init == [] {
      assert prev == xs;
    } else {
      PushAllNewestFirst(xs, init, cap);
      var m := if |prev| < cap then |prev| else cap;
      assert PushAll(xs, ys, cap) == PushCapped(prev[..m], y, cap);
      assert ([y] + prev[..m])[..n] == all[..n];
    }
  }

  class AppStore {
    var contacts: seq<Contact>
    var templates: seq<MessageTemplate>
    var campaigns: seq<Campaign>
    var logs: seq<MessageLog>
    var settings: Settings

    /** The state before anything is loaded. */
    constructor ()
      ensures contacts == [] && templates == DefaultTemplates && campaigns == []
      ensures logs == [] && settings == DefaultSettings
    {
      contacts := [];
      templates := DefaultTemplates;
      campaigns := [];
      logs := [];
      settings := DefaultSettings;
    }

    /** Hydration: with nothing stored the state stays; otherwise every missing
        part falls back to its default. */
    method LoadFromStorage(data: Option<Stored>)
      modifies this
      ensures data.None? ==>
                contacts == old(contacts) && templates == old(templates)
                && campaigns == old(campaigns) && logs == old(logs) && settings == old(settings)
      ensures data.Some? ==>
                contacts == OrElse(data.value.contacts, [])
                && templates == TemplatesOrDefault(data.value.templates)
                && campaigns == OrElse(data.value.campaigns, [])
                && logs == OrElse(data.value.logs, [])
                && settings == OrElse(data.value.settings, DefaultSettings)
    {
      if data.Some? {
        var d := data.value;
        contacts := OrElse(d.contacts, []);
        templates := TemplatesOrDefault(d.templates);
        campaigns := OrElse(d.campaigns, []);
        logs := OrElse(d.logs, []);
        settings := OrElse(d.settings, DefaultSettings);
      }
    }

    method AddContact(c: NewContact, id: string, now: int)
      modifies this
      ensures contacts == old(contacts) + [StampContact(c, id, now)]
      ensures templates == old(templates) && campaigns == old(campaigns)
      ensures logs == old(logs) && settings == old(settings)
    {
      contacts := contacts + [StampContact(c, id, now)];
    }

    method RemoveContact(id: string)
      modifies this
      ensures contacts == ContactsWithout(old(contacts), id)
      ensures templates == old(templates) && campaigns == old(campaigns)
      ensures logs == old(logs) && settings == old(settings)
    {
      contacts := ContactsWithout(contacts, id);
    }

    method UpdateContact(id: string, p: ContactPatch)
      modifies this
      ensures contacts == UpdateContacts(old(contacts), id, p)
      ensures templates == old(templates) && campaigns == old(campaigns)
      ensures logs == old(logs) && settings == old(settings)
    {
      contacts := UpdateContacts(contacts, id, p);
    }

    method ImportContacts(cs: seq<NewContact>, ids: seq<string>, times: seq<int>)
      requires |ids| == |cs| && |times| == |cs|
      modifies this
      ensures contacts == old(contacts) + StampContacts(cs, ids, times)
      ensures templates == old(templates) && campaigns == old(campaigns)
      ensures logs == old(logs) && settings == old(settings)
    {
      contacts := contacts + StampContacts(cs, ids, times);
    }

    method AddTemplate(t: NewTemplate, id: string, now: int)
      modifies this
      ensures templates == old(templates) + [StampTemplate(t, id, now)]
      ensures contacts == old(contacts) && campaigns == old(campaigns)
      ensures logs == old(logs) && settings == old(settings)
    {
      templates := templates + [StampTemplate(t, id, now)];
    }

    method RemoveTemplate(id: string)
      modifies this
      ensures templates == TemplatesWithout(old(templates), id)
      ensures contacts == old(contacts) && campaigns == old(campaigns)
      ensures logs == old(logs) && settings == old(settings)
    {
      templates := TemplatesWithout(templates, id);
    }

    method UpdateTemplate(id: string, p: TemplatePatch)
      modifies this
      ensures templates == UpdateTemplates(old(templates), id, p)
      ensures contacts == old(contacts) && campaigns == old(campaigns)
      ensures logs == old(logs) && settings == old(settings)
    {
      templates := UpdateTemplates(templates, id, p);
    }

    method AddCampaign(c: NewCampaign, id: string, now: int)
      modifies this
      ensures campaigns == old(campaigns) + [StampCampaign(c, id, now)]
      ensures contacts == old(contacts) && templates == old(templates)
      ensures logs == old(logs) && settings == old(settings)
    {
      campaigns := campaigns + [StampCampaign(c, id, now)];
    }

    method UpdateCampaign(id: string, p: CampaignPatch)
      modifies this
      ensures campaigns == UpdateCampaigns(old(campaigns), id, p)
      ensures contacts == old(contacts) && templates == old(templates)
      ensures logs == old(logs) && settings == old(settings)
    {
      campaigns := UpdateCampaigns(campaigns, id, p);
    }

    /** The newest log goes first; at most `LogCap` entries are kept. */
    method AddLog(l: NewLog, id: string)
      modifies this
      ensures logs == PushCapped(old(logs), StampLog(l, id), LogCap)
      ensures contacts == old(contacts) && templates == old(templates)
      ensures campaigns == old(campaigns) && settings == old(settings)
    {
      logs := PushCapped(logs, StampLog(l, id), LogCap);
    }

    method UpdateSettings(p: SettingsPatch)
      modifies this
      ensures settings == PatchSettings(old(settings), p)
      ensures contacts == old(contacts) && templates == old(templates)
      ensures campaigns == old(campaigns) && logs == old(logs)
    {
      settings := PatchSettings(settings, p);
    }
  }
}
