/** The records the application keeps (src/types/index.ts). Dates are integer
    timestamps; optional fields are `Option`s. */
module Domain {
  import opened Wrappers

  datatype Contact = Contact(id: string, name: string, phone: string, tags: seq<string>, createdAt: int)

  /** A contact before the store gives it an id and a creation time. */
  datatype NewContact = NewContact(name: string, phone: string, tags: seq<string>)

  datatype MessageTemplate = MessageTemplate(id: string, name: string, content: string, createdAt: int)

  /** A template before the store gives it an id and a creation time. */
  datatype NewTemplate = NewTemplate(name: string, content: string)

  datatype CampaignStatus = Draft | Scheduled | Sending | Completed | Failed

  datatype Campaign = Campaign(
    id: string,
    name: string,
    status: CampaignStatus,
    contacts: seq<string>,
    template: Option<string>,
    message: string,
    scheduledAt: Option<int>,
    sentCount: int,
    totalCount: int,
    createdAt: int)

  /** A campaign before the store gives it an id, a creation time and a zero send count. */
  datatype NewCampaign = NewCampaign(
    name: string,
    status: CampaignStatus,
    contacts: seq<string>,
    template: Option<string>,
    message: string,
    scheduledAt: Option<int>,
    totalCount: int)

  datatype LogStatus = Pending | Sent | Delivered | Failed

  datatype MessageLog = MessageLog(
    id: string,
    campaignId: Option<string>,
    contactId: string,
    contactName: string,
    contactPhone: string,
    message: string,
    status: LogStatus,
    sentAt: int,
    error: Option<string>)

  /** A log entry before the store gives it an id. */
  datatype NewLog = NewLog(
    campaignId: Option<string>,
    contactId: string,
    contactName: string,
    contactPhone: string,
    message: string,
    status: LogStatus,
    sentAt: int,
    error: Option<string>)

  /** The declared settings, plus the gateway credentials the messaging client
      reads from the same record (never set by the defaults). */
  datatype Settings = Settings(
    delayBetweenMessages: int,
    maxMessagesPerDay: int,
    businessName: string,
    defaultCountryCode: string,
    phoneNumberId: Option<string>,
    businessAccountId: Option<string>,
    accessToken: Option<string>,
    apiVersion: Option<string>)

  /** A record's partial update: `None` marks a field the patch leaves alone. */
  datatype ContactPatch = ContactPatch(
    id: Option<string>,
    name: Option<string>,
    phone: Option<string>,
    tags: Option<seq<string>>,
    createdAt: Option<int>)

  datatype TemplatePatch = TemplatePatch(
    id: Option<string>,
    name: Option<string>,
    content: Option<string>,
    createdAt: Option<int>)

  datatype CampaignPatch = CampaignPatch(
    id: Option<string>,
    name: Option<string>,
    status: Option<CampaignStatus>,
    contacts: Option<seq<string>>,
    template: Option<string>,
    message: Option<string>,
    scheduledAt: Option<int>,
    sentCount: Option<int>,
    totalCount: Option<int>,
    createdAt: Option<int>)

  datatype SettingsPatch = SettingsPatch(
    delayBetweenMessages: Option<int>,
    maxMessagesPerDay: Option<int>,
    businessName: Option<string>,
    defaultCountryCode: Option<string>,
    phoneNumberId: Option<string>,
    businessAccountId: Option<string>,
    accessToken: Option<string>,
    apiVersion: Option<string>)

  /** A patch that sets only the status: the shape `startCampaign` sends. */
  function StatusPatch(s: CampaignStatus): CampaignPatch {
    CampaignPatch(None, None, Some(s), None, None, None, None, None, None, None)
  }

  /** A patch that sets only the send count. */
  function SentCountPatch(n: int): CampaignPatch {
    CampaignPatch(None, None, None, None, None, None, None, Some(n), None, None)
  }

  /** `{ ...x, ...patch }` for one field. */
  function Pick<T>(patched: Option<T>, prev: T): T {
    if patched.Some? then patched.value else prev
  }

  function PatchContact(c: Contact, p: ContactPatch): Contact {
    Contact(Pick(p.id, c.id), Pick(p.name, c.name), Pick(p.phone, c.phone),
            Pick(p.tags, c.tags), Pick(p.createdAt, c.createdAt))
  }

  function PatchTemplate(t: MessageTemplate, p: TemplatePatch): MessageTemplate {
    MessageTemplate(Pick(p.id, t.id), Pick(p.name, t.name), Pick(p.content, t.content),
                    Pick(p.createdAt, t.createdAt))
  }

  function PatchCampaign(c: Campaign, p: CampaignPatch): Campaign {
    Campaign(Pick(p.id, c.id), Pick(p.name, c.name), Pick(p.status, c.status),
             Pick(p.contacts, c.contacts),
             if p.template.Some? then p.template else c.template,
             Pick(p.message, c.message),
             if p.scheduledAt.Some? then p.scheduledAt else c.scheduledAt,
             Pick(p.sentCount, c.sentCount), Pick(p.totalCount, c.totalCount),
             Pick(p.createdAt, c.createdAt))
  }

  /** The patch that applying `p` and then `q` amounts to: a field `q` names wins. */
  function ThenPatch(p: CampaignPatch, q: CampaignPatch): CampaignPatch {
    CampaignPatch(
      if q.id.Some? then q.id else p.id,
      if q.name.Some? then q.name else p.name,
      if q.status.Some? then q.status else p.status,
      if q.contacts.Some? then q.contacts else p.contacts,
      if q.template.Some? then q.template else p.template,
      if q.message.Some? then q.message else p.message,
      if q.scheduledAt.Some? then q.scheduledAt else p.scheduledAt,
      if q.sentCount.Some? then q.sentCount else p.sentCount,
      if q.totalCount.Some? then q.totalCount else p.totalCount,
      if q.createdAt.Some? then q.createdAt else p.createdAt)
  }

  function PatchSettings(s: Settings, p: SettingsPatch): Settings {
    Settings(Pick(p.delayBetweenMessages, s.delayBetweenMessages),
             Pick(p.maxMessagesPerDay, s.maxMessagesPerDay),
             Pick(p.businessName, s.businessName),
             Pick(p.defaultCountryCode, s.defaultCountryCode),
             if p.phoneNumberId.Some? then p.phoneNumberId else s.phoneNumberId,
             if p.businessAccountId.Some? then p.businessAccountId else s.businessAccountId,
             if p.accessToken.Some? then p.accessToken else s.accessToken,
             if p.apiVersion.Some? then p.apiVersion else s.apiVersion)
  }
}
