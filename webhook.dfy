/** The webhook receiver (server.ts): it verifies the provider's subscription
    handshake, turns delivered envelopes into message records, and keeps one
    conversation per phone number. The conversation directory is a map from
    phone number to conversation; reading and writing its files, the HTTP
    server and JSON are not modelled, and the clock is a parameter. */
module Webhook {
  import opened Wrappers
  import Seqs
  import Text

  // ---------------------------------------------------------------- records

  datatype Direction = Incoming | Outgoing

  /** One stored message; `timestamp` is in milliseconds. */
  datatype WaMessage = WaMessage(
    id: string,
    from: string,
    timestamp: int,
    kind: string,
    text: Option<string>,
    caption: Option<string>,
    direction: Direction)

  /** One conversation file. */
  datatype Conversation = Conversation(
    phoneNumber: string,
    contactName: Option<string>,
    messages: seq<WaMessage>,
    lastMessageAt: int,
    createdAt: int)

  datatype ServerConfig = ServerConfig(webhookVerifyToken: string, phoneNumberId: string, accessToken: string)

  /** A partial configuration as posted by the front end or read from the config file. */
  datatype ConfigPatch = ConfigPatch(
    webhookVerifyToken: Option<string>,
    phoneNumberId: Option<string>,
    accessToken: Option<string>)

  datatype Response = Response(status: int, body: Option<string>)

  const DefaultConfig := ServerConfig("whatsapp_webhook_verify_token", "", "")

  /** The truthiness test of an optional string. */
  predicate Truthy(s: Option<string>) {
    s.Some? && s.value != ""
  }

  /** An optional value spliced into a template literal. */
  function Render(s: Option<string>): string {
    if s.Some? then s.value else "undefined"
  }

  // ---------------------------------------------------------------- configuration

  /** `{ ...config, ...patch }`. */
  function MergeConfig(config: ServerConfig, patch: ConfigPatch): (r: ServerConfig)
    ensures r.webhookVerifyToken == if patch.webhookVerifyToken.Some? then patch.webhookVerifyToken.value
                                    else config.webhookVerifyToken
    ensures r.phoneNumberId == if patch.phoneNumberId.Some? then patch.phoneNumberId.value else config.phoneNumberId
    ensures r.accessToken == if patch.accessToken.Some? then patch.accessToken.value else config.accessToken
  {
    ServerConfig(
      if patch.webhookVerifyToken.Some? then patch.webhookVerifyToken.value else config.webhookVerifyToken,
      if patch.phoneNumberId.Some? then patch.phoneNumberId.value else config.phoneNumberId,
      if patch.accessToken.Some? then patch.accessToken.value else config.accessToken)
  }

  /** Saving the same partial configuration twice is saving it once, and an
      empty one changes nothing. */
  lemma MergeConfigIdempotent(config: ServerConfig, patch: ConfigPatch)
    ensures MergeConfig(MergeConfig(config, patch), patch) == MergeConfig(config, patch)
    ensures MergeConfig(config, ConfigPatch(None, None, None)) == config
  {
  }

  /** `GET /webhook`: the challenge is echoed exactly when the mode is
      `subscribe` and the token is the configured one. */
  function Verify(config: ServerConfig, mode: Option<string>, token: Option<string>, challenge: Option<string>)
    : (r: Response)
    ensures r.status == 200 || r.status == 403
    ensures r.status == 200 <==> mode == Some("subscribe") && token == Some(config.webhookVerifyToken)
    ensures r.status == 200 ==> r.body == challenge
    ensures r.status == 403 ==> r.body == Some("Forbidden")
  {
    if mode == Some("subscribe") && token == Some(config.webhookVerifyToken) then Response(200, challenge)
    else Response(403, Some("Forbidden"))
  }

  /** `GET /api/config`: the verify token and whether one is set. */
  function ConfigView(config: ServerConfig): (r: (string, bool))
    ensures r.0 == config.webhookVerifyToken
    ensures r.1 <==> config.webhookVerifyToken != ""
  {
    (config.webhookVerifyToken, config.webhookVerifyToken != "")
  }

  // ---------------------------------------------------------------- envelopes

  /** One provider message as delivered, reduced to the fields the parser reads:
      `timestamp` is `parseInt` of the provider's seconds (`None` for `NaN`),
      `body` is `text.body`, `caption` is the caption under the key named by the
      type, `emoji` is `reaction.emoji`. */
  datatype RawMessage = RawMessage(
    id: string,
    from: string,
    timestamp: Option<int>,
    kind: Option<string>,
    body: Option<string>,
    caption: Option<string>,
    emoji: Option<string>)

  datatype RawContact = RawContact(profileName: Option<string>)
  datatype Value = Value(messages: Option<seq<RawMessage>>, contacts: Option<seq<RawContact>>)
  datatype Change = Change(value: Option<Value>)
  datatype Entry = Entry(changes: Option<seq<Change>>)

  datatype Parsed = Parsed(phoneNumber: string, message: WaMessage, contactName: Option<string>)

  /** The largest time value a JavaScript `Date` holds; `toISOString` throws beyond it. */
  const MaxTime := 8_640_000_000_000_000

  /** The first message of the first change, when there is one. */
  function FirstMessage(entry: Entry): Option<RawMessage> {
    if entry.changes.None? || entry.changes.value == [] then None
    else
      var value := entry.changes.value[0].value;
      if value.None? || value.value.messages.None? || value.value.messages.value == [] then None
      else Some(value.value.messages.value[0])
  }

  /** The profile name of the first contact of the first change. */
  function FirstContactName(entry: Entry): Option<string>
    requires FirstMessage(entry).Some?
  {
    var value := entry.changes.value[0].value.value;
    if value.contacts.None? || value.contacts.value == [] then None
    else value.contacts.value[0].profileName
  }

  function MediaLabel(kind: string): string {
    if kind == "image" then "IMAGE" else if kind == "video" then "VIDEO" else "DOCUMENT"
  }

  predicate IsMedia(kind: Option<string>) {
    kind == Some("image") || kind == Some("video") || kind == Some("document")
  }

  /** The display text for each message type. */
  function DisplayText(m: RawMessage): (r: Option<string>)
    ensures m.kind == Some("text") ==> r == m.body
    ensures IsMedia(m.kind) ==> r.Some? && Text.StartsWith(r.value, "[" + MediaLabel(m.kind.value) + "]")
    ensures IsMedia(m.kind) ==> (r == Some("[" + MediaLabel(m.kind.value) + "]") <==> !Truthy(m.caption))
    ensures IsMedia(m.kind) && Truthy(m.caption) ==> r == Some("[" + MediaLabel(m.kind.value) + "]" + ": " + m.caption.value)
    ensures m.kind == Some("audio") ==> r == Some("[AUDIO MESSAGE]")
    ensures m.kind == Some("sticker") ==> r == Some("[STICKER]")
    ensures m.kind == Some("reaction") ==> r == Some("[REACTION: " + Render(m.emoji) + "]")
    ensures r.None? <==> (m.kind == Some("text") && m.body.None?) ||
                         !(m.kind.Some? && m.kind.value in {"text", "image", "video", "document", "audio", "sticker", "reaction"})
  {
    if m.kind == Some("text") then m.body
    else if IsMedia(m.kind) then
      var tag := "[" + MediaLabel(m.kind.value) + "]";
      var r := tag + (if Truthy(m.caption) then ": " + m.caption.value else "");
      assert r[..|tag|] == tag;
      assert Truthy(m.caption) ==> |r| > |tag|;
      assert Truthy(m.caption) ==> r == tag + ": " + m.caption.value;
      assert !Truthy(m.caption) ==> r == tag;
      Some(r)
    else if m.kind == Some("audio") then Some("[AUDIO MESSAGE]")
    else if m.kind == Some("sticker") then Some("[STICKER]")
    else if m.kind == Some("reaction") then Some("[REACTION: " + Render(m.emoji) + "]")
    else None
  }

  /** `parseWebhookMessage`: the first message of the first change as an incoming
      record; none when there is no such message or its time cannot be rendered. */
  function ParseWebhookMessage(entry: Entry): (r: Option<Parsed>)
    ensures FirstMessage(entry).None? ==> r.None?
    ensures FirstMessage(entry).Some? ==>
              var m := FirstMessage(entry).value;
              (r.None? <==> m.timestamp.None? || m.timestamp.value * 1000 < -MaxTime || m.timestamp.value * 1000 > MaxTime)
    ensures r.Some? ==>
              var m := FirstMessage(entry).value;
              && r.value.phoneNumber == m.from
              && r.value.message.id == m.id && r.value.message.from == m.from
              && r.value.message.direction == Incoming
              && r.value.message.timestamp == m.timestamp.value * 1000
              && r.value.message.kind == (if m.kind.None? || m.kind.value == "" then "unknown" else m.kind.value)
              && r.value.message.text == DisplayText(m)
              && r.value.message.caption == (if IsMedia(m.kind) then m.caption else None)
              && r.value.contactName == FirstContactName(entry)
  {
    var first := FirstMessage(entry);
    if first.None? then None
    else
      var m := first.value;
      if m.timestamp.None? || m.timestamp.value * 1000 < -MaxTime || m.timestamp.value * 1000 > MaxTime then None
      else
        var kind := if m.kind.None? || m.kind.value == "" then "unknown" else m.kind.value;
        var message := WaMessage(m.id, m.from, m.timestamp.value * 1000, kind, DisplayText(m),
                                 if IsMedia(m.kind) then m.caption else None, Incoming);
        Some(Parsed(m.from, message, FirstContactName(entry)))
  }

  /** Only the first change and its first message are read: an envelope cut down
      to them parses the same. */
  lemma ParseReadsFirst(entry: Entry)
    requires FirstMessage(entry).Some?
    ensures var value := entry.changes.value[0].value.value;
      var cut := Entry(Some([Change(Some(Value(Some([value.messages.value[0]]), value.contacts)))]));
      ParseWebhookMessage(cut) == ParseWebhookMessage(entry)
  {
    var value := entry.changes.value[0].value.value;
    var cut := Entry(Some([Change(Some(Value(Some([value.messages.value[0]]), value.contacts)))]));
    assert FirstMessage(cut) == FirstMessage(entry);
    assert FirstContactName(cut) == FirstContactName(entry);
  }

  // ---------------------------------------------------------------- conversations

  predicate HasMessage(conv: Conversation, id: string) {
    exists k :: 0 <= k < |conv.messages| && conv.messages[k].id == id
  }

  predicate DistinctIds(messages: seq<WaMessage>) {
    forall i, j :: 0 <= i < j < |messages| ==> messages[i].id != messages[j].id
  }

  /** Every conversation is filed under its own number and holds each message id once. */
  predicate StoreValid(convs: map<string, Conversation>) {
    forall p :: p in convs ==> convs[p].phoneNumber == p && DistinctIds(convs[p].messages)
  }

  /** `getConversation`: the stored conversation, or a new empty one started now. */
  function Lookup(convs: map<string, Conversation>, phone: string, now: int): (r: Conversation)
    ensures phone in convs ==> r == convs[phone]
    ensures phone !in convs ==> r == Conversation(phone, None, [], now, now)
  {
    if phone in convs then convs[phone] else Conversation(phone, None, [], now, now)
  }

  /** One message added to one conversation: none when its id is already there;
      otherwise it goes last, sets the last-message time, and a non-empty name
      replaces the contact name. */
  function Record(conv: Conversation, message: WaMessage, contactName: Option<string>): (r: Option<Conversation>)
    ensures r.None? <==> HasMessage(conv, message.id)
    ensures r.Some? ==> r.value.messages == conv.messages + [message]
    ensures r.Some? ==> r.value.lastMessageAt == message.timestamp
    ensures r.Some? ==> r.value.phoneNumber == conv.phoneNumber && r.value.createdAt == conv.createdAt
    ensures r.Some? ==> r.value.contactName == if Truthy(contactName) then contactName else conv.contactName
    ensures r.Some? && DistinctIds(conv.messages) ==> DistinctIds(r.value.messages)
  {
    if exists k :: 0 <= k < |conv.messages| && conv.messages[k].id == message.id then None
    else
      var messages := conv.messages + [message];
      assert forall k :: 0 <= k < |conv.messages| ==> messages[k] == conv.messages[k];
      Some(Conversation(conv.phoneNumber, if Truthy(contactName) then contactName else conv.contactName,
                        messages, message.timestamp, conv.createdAt))
  }

  /** `addMessage` on the whole conversation directory. */
  function Ingest(convs: map<string, Conversation>, phone: string, message: WaMessage,
                  contactName: Option<string>, now: int): (r: map<string, Conversation>)
    ensures phone in convs && HasMessage(convs[phone], message.id) ==> r == convs
    ensures !(phone in convs && HasMessage(convs[phone], message.id)) ==>
              r == convs[phone := Record(Lookup(convs, phone, now), message, contactName).value]
  {
    var rec := Record(Lookup(convs, phone, now), message, contactName);
    if rec.None? then convs else convs[phone := rec.value]
  }

  /** Adding a message keeps every conversation filed under its number with
      distinct message ids. */
  lemma IngestValid(convs: map<string, Conversation>, phone: string, message: WaMessage,
                    contactName: Option<string>, now: int)
    requires StoreValid(convs)
    ensures StoreValid(Ingest(convs, phone, message, contactName, now))
  {
    var conv := Lookup(convs, phone, now);
    assert DistinctIds(conv.messages);
  }

  /** The message is in its conversation afterwards, and no message that was
      stored before is lost. */
  lemma IngestHolds(convs: map<string, Conversation>, phone: string, message: WaMessage,
                    contactName: Option<string>, now: int)
    ensures var r := Ingest(convs, phone, message, contactName, now);
      phone in r && HasMessage(r[phone], message.id)
    ensures var r := Ingest(convs, phone, message, contactName, now);
      forall p, id :: p in convs && HasMessage(convs[p], id) ==> p in r && HasMessage(r[p], id)
  {
    var r := Ingest(convs, phone, message, contactName, now);
    var conv := Lookup(convs, phone, now);
    if !(phone in convs && HasMessage(convs[phone], message.id)) {
      var rec := Record(conv, message, contactName).value;
      assert rec.messages[|conv.messages|] == message;
      forall p, id | p in convs && HasMessage(convs[p], id) ensures p in r && HasMessage(r[p], id) {
        if p == phone {
          var k :| 0 <= k < |conv.messages| && conv.messages[k].id == id;
          assert rec.messages[k] == conv.messages[k];
        }
      }
    }
  }

  /** A message delivered twice is stored once. */
  lemma IngestTwice(convs: map<string, Conversation>, phone: string, message: WaMessage,
                    contactName: Option<string>, now: int, later: int)
    ensures var once := Ingest(convs, phone, message, contactName, now);
      Ingest(once, phone, message, contactName, later) == once
  {
    IngestHolds(convs, phone, message, contactName, now);
  }

  // ---------------------------------------------------------------- webhook deliveries

  /** The directory after the first `n` entries of a delivery, each parsed and added
      in order; `clock(k)` is the time when entry `k` is handled. */
  function Delivered(convs: map<string, Conversation>, entries: seq<Entry>, clock: nat -> int, n: nat)
    : map<string, Conversation>
    requires n <= |entries|
    decreases n
  {
    if n == 0 then convs
    else
      var prev := Delivered(convs, entries, clock, n - 1);
      var parsed := ParseWebhookMessage(entries[n - 1]);
      if parsed.Some? then Ingest(prev, parsed.value.phoneNumber, parsed.value.message, parsed.value.contactName, clock(n - 1))
      else prev
  }

  lemma {:induction false} DeliveredValid(convs: map<string, Conversation>, entries: seq<Entry>, clock: nat -> int, n: nat)
    requires n <= |entries| && StoreValid(convs)
    ensures StoreValid(Delivered(convs, entries, clock, n))
    decreases n
  {
    if n > 0 {
      DeliveredValid(convs, entries, clock, n - 1);
      var parsed := ParseWebhookMessage(entries[n - 1]);
      if parsed.Some? {
        IngestValid(Delivered(convs, entries, clock, n - 1), parsed.value.phoneNumber, parsed.value.message,
                    parsed.value.contactName, clock(n - 1));
      }
    }
  }

  /** Whether the message of a parsed entry is already stored. */
  predicate Stored(convs: map<string, Conversation>, parsed: Option<Parsed>) {
    parsed.Some? ==> parsed.value.phoneNumber in convs && HasMessage(convs[parsed.value.phoneNumber], parsed.value.message.id)
  }

  /** After a delivery, every message it carried is stored. */
  lemma {:induction false} DeliveredStored(convs: map<string, Conversation>, entries: seq<Entry>, clock: nat -> int, n: nat)
    requires n <= |entries|
    ensures forall k :: 0 <= k < n ==> Stored(Delivered(convs, entries, clock, n), ParseWebhookMessage(entries[k]))
    decreases n
  {
    if n > 0 {
      DeliveredStored(convs, entries, clock, n - 1);
      var prev := Delivered(convs, entries, clock, n - 1);
      var parsed := ParseWebhookMessage(entries[n - 1]);
      if parsed.Some? {
        IngestHolds(prev, parsed.value.phoneNumber, parsed.value.message, parsed.value.contactName, clock(n - 1));
      }
    }
  }

  /** Entries whose messages are all stored change nothing. */
  lemma {:induction false} DeliveredFixed(convs: map<string, Conversation>, entries: seq<Entry>, clock: nat -> int, n: nat)
    requires n <= |entries|
    requires forall k :: 0 <= k < n ==> Stored(convs, ParseWebhookMessage(entries[k]))
    ensures Delivered(convs, entries, clock, n) == convs
    decreases n
  {
    if n > 0 {
      DeliveredFixed(convs, entries, clock, n - 1);
      assert Stored(convs, ParseWebhookMessage(entries[n - 1]));
    }
  }

  /** A delivery the provider repeats, at any later time, leaves the directory
      as the first delivery left it. */
  lemma Redelivery(convs: map<string, Conversation>, entries: seq<Entry>, clock: nat -> int, later: nat -> int)
    ensures var once := Delivered(convs, entries, clock, |entries|);
      Delivered(once, entries, later, |entries|) == once
  {
    var once := Delivered(convs, entries, clock, |entries|);
    DeliveredStored(convs, entries, clock, |entries|);
    DeliveredFixed(once, entries, later, |entries|);
  }

  // ---------------------------------------------------------------- listing

  predicate EndsWith(s: string, suffix: string) {
    |suffix| <= |s| && s[|s| - |suffix|..] == suffix
  }

  /** The stored conversations of the `.json` files of a directory listing, in listing order. */
  function Files(convs: map<string, Conversation>, files: seq<string>): (r: seq<Conversation>)
    ensures forall i :: 0 <= i < |r| ==> r[i] in convs.Values
    decreases |files|
  {
    if files == [] then []
    else
      var init := Files(convs, files[..|files| - 1]);
      var f := files[|files| - 1];
      if EndsWith(f, ".json") && f[..|f| - 5] in convs then init + [convs[f[..|f| - 5]]] else init
  }

  lemma {:induction false} FilesComplete(convs: map<string, Conversation>, files: seq<string>, i: nat)
    requires i < |files| && EndsWith(files[i], ".json") && files[i][..|files[i]| - 5] in convs
    ensures convs[files[i][..|files[i]| - 5]] in Files(convs, files)
    decreases |files|
  {
    if i < |files| - 1 {
      assert files[..|files| - 1][i] == files[i];
      FilesComplete(convs, files[..|files| - 1], i);
    }
  }

  predicate NewestFirst(xs: seq<Conversation>) {
    forall i, j :: 0 <= i < j < |xs| ==> xs[i].lastMessageAt >= xs[j].lastMessageAt
  }

  function Staleness(c: Conversation): int {
    -c.lastMessageAt
  }

  /** `GET /api/conversations`: the stored conversations, newest message first;
      `ListingStable` keeps equal times in the order of the file list. */
  function Listing(convs: map<string, Conversation>, files: seq<string>): (r: seq<Conversation>)
    ensures NewestFirst(r)
    ensures multiset(r) == multiset(Files(convs, files))
  {
    var r := Seqs.SortByKey(Files(convs, files), Staleness);
    assert forall i, j :: 0 <= i < j < |r| ==> Staleness(r[i]) <= Staleness(r[j]);
    r
  }

  /** Conversations with the same `lastMessageAt` (the same `Staleness` `v`) keep
      the order of the file list. */
  lemma ListingStable(convs: map<string, Conversation>, files: seq<string>, v: int)
    ensures Seqs.WithKey(Listing(convs, files), Staleness, v) == Seqs.WithKey(Files(convs, files), Staleness, v)
  {
    Seqs.SortByKeyStable(Files(convs, files), Staleness, v);
  }

  /** Every conversation whose file is listed is in the listing. */
  lemma ListingComplete(convs: map<string, Conversation>, files: seq<string>, phone: string)
    requires phone in convs && phone + ".json" in files
    ensures convs[phone] in Listing(convs, files)
  {
    var i :| 0 <= i < |files| && files[i] == phone + ".json";
    assert files[i][..|files[i]| - 5] == phone;
    FilesComplete(convs, files, i);
    var r := Listing(convs, files);
    assert convs[phone] in multiset(Files(convs, files));
    assert convs[phone] in multiset(r);
  }

  /** `GET /api/conversations/<phone>`: the last path segment names the number;
      an empty one is not found, any other gives that conversation or an empty one. */
  function Conversations(convs: map<string, Conversation>, path: string, now: int): (r: Option<Conversation>)
    ensures var segments := Text.Split(path, {'/'});
      && (r.None? <==> segments[|segments| - 1] == "")
      && (r.Some? ==> r.value == Lookup(convs, segments[|segments| - 1], now))
  {
    var segments := Text.Split(path, {'/'});
    var phone := segments[|segments| - 1];
    if phone == "" then None else Some(Lookup(convs, phone, now))
  }

  // ---------------------------------------------------------------- outgoing

  datatype OutgoingBody = OutgoingBody(
    phoneNumber: string,
    messageId: Option<string>,
    text: Option<string>,
    contactName: Option<string>)

  /** The record of a message the app sent: from `me`, outgoing text, with the given
      id or one made from the clock. */
  function OutgoingMessage(body: OutgoingBody, now: nat): (r: WaMessage)
    ensures r.from == "me" && r.direction == Outgoing && r.kind == "text"
    ensures r.text == body.text && r.timestamp == now
    ensures Truthy(body.messageId) ==> r.id == body.messageId.value
    ensures !Truthy(body.messageId) ==> Text.StartsWith(r.id, "out_") && r.id[4..] == Text.NatToString(now)
  {
    var id := if Truthy(body.messageId) then body.messageId.value else "out_" + Text.NatToString(now);
    assert !Truthy(body.messageId) ==> id[..4] == "out_" && id[4..] == Text.NatToString(now);
    WaMessage(id, "me", now, "text", body.text, None, Outgoing)
  }

  // ---------------------------------------------------------------- the server

  class WebhookServer {
    var config: ServerConfig
    var conversations: map<string, Conversation>

    ghost predicate Valid()
      reads this
    {
      StoreValid(conversations)
    }

    /** Start-up: the configuration file, if any, merged over the defaults, and
        the conversations already on disk. */
    constructor (stored: Option<ConfigPatch>, saved: map<string, Conversation>)
      ensures config == if stored.Some? then MergeConfig(DefaultConfig, stored.value) else DefaultConfig
      ensures conversations == saved
    {
      config := if stored.Some? then MergeConfig(DefaultConfig, stored.value) else DefaultConfig;
      conversations := saved;
    }

    /** `saveConfig`. */
    method SaveConfig(patch: ConfigPatch)
      modifies this
      ensures config == MergeConfig(old(config), patch)
      ensures conversations == old(conversations)
    {
      config := MergeConfig(config, patch);
    }

    /** `POST /api/config`: 500 for a body that is not JSON, otherwise saved. */
    method PostConfig(body: Option<ConfigPatch>) returns (status: int)
      modifies this
      ensures body.None? ==> status == 500 && config == old(config)
      ensures body.Some? ==> status == 200 && config == MergeConfig(old(config), body.value)
      ensures conversations == old(conversations)
    {
      if body.None? {
        return 500;
      }
      SaveConfig(body.value);
      status := 200;
    }

    /** `addMessage`. */
    method AddMessage(phone: string, message: WaMessage, contactName: Option<string>, now: int)
      modifies this
      ensures conversations == Ingest(old(conversations), phone, message, contactName, now)
      ensures config == old(config)
      ensures old(Valid()) ==> Valid()
    {
      if old(Valid()) {
        IngestValid(conversations, phone, message, contactName, now);
      }
      var conversation := Lookup(conversations, phone, now);
      if exists k :: 0 <= k < |conversation.messages| && conversation.messages[k].id == message.id {
        return;
      }
      var name := if Truthy(contactName) then contactName else conversation.contactName;
      conversation := conversation.(messages := conversation.messages + [message],
                                    lastMessageAt := message.timestamp, contactName := name);
      conversations := conversations[phone := conversation];
    }

    /** `POST /webhook`: 500 for a body that is not JSON; otherwise every entry's
        message is added in order and the provider gets 200. `entries` is `None`
        for a body without entries. */
    method HandleWebhook(body: Option<Option<seq<Entry>>>, clock: nat -> int) returns (status: int)
      modifies this
      ensures body.None? ==> status == 500 && conversations == old(conversations)
      ensures body.Some? ==> status == 200
      ensures body.Some? && body.value.None? ==> conversations == old(conversations)
      ensures body.Some? && body.value.Some? ==>
                conversations == Delivered(old(conversations), body.value.value, clock, |body.value.value|)
      ensures config == old(config)
      ensures old(Valid()) ==> Valid()
    {
      if body.None? {
        return 500;
      }
      if body.value.Some? {
        var entries := body.value.value;
        var i := 0;
        while i < |entries|
          invariant 0 <= i <= |entries|
          invariant conversations == Delivered(old(conversations), entries, clock, i)
          invariant config == old(config)
          invariant old(Valid()) ==> Valid()
        {
          var parsed := ParseWebhookMessage(entries[i]);
          if parsed.Some? {
            AddMessage(parsed.value.phoneNumber, parsed.value.message, parsed.value.contactName, clock(i));
          }
          i := i + 1;
        }
      }
      status := 200;
    }

    /** `POST /api/messages/outgoing`: 500 for a body that is not JSON, otherwise
        the message is added to its conversation. */
    method PostOutgoing(body: Option<OutgoingBody>, now: nat) returns (status: int)
      modifies this
      ensures body.None? ==> status == 500 && conversations == old(conversations)
      ensures body.Some? ==> status == 200
      ensures body.Some? ==>
                conversations == Ingest(old(conversations), body.value.phoneNumber,
                                        OutgoingMessage(body.value, now), body.value.contactName, now)
      ensures config == old(config)
      ensures old(Valid()) ==> Valid()
    {
      if body.None? {
        return 500;
      }
      AddMessage(body.value.phoneNumber, OutgoingMessage(body.value, now), body.value.contactName, now);
      status := 200;
    }
  }
}
