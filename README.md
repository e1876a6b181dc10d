# wapp-batch-buddy in Dafny

This project models the logic of wapp-batch-buddy, a WhatsApp bulk-messaging console. The console keeps contacts, message templates, campaigns and delivery logs in a browser store. It imports and exports contacts as CSV and sends campaigns by opening one WhatsApp link per recipient. It also runs a small webhook server that files incoming WhatsApp messages into per-number conversations. The project proves properties of that model.

The modules follow the program's files:

- `Csv` is the contact page's CSV scanner (`parseCsv`) and writer (`escapeCsvValue` and the CRLF join).
  - The scanner is a method whose `while` loop is proved equal to a recursive specification, `Rows`.
  - The writer is proved to round-trip through the scanner.
- `Contacts` covers the rest of the contact page:
  - phone normalisation and tag splitting;
  - the header/positional column mapping of the importer, which is a loop proved against `ContactsFromCsv`;
  - export, the add-contact form and its validation, and the search box.
  - An export followed by an import gives the contacts back.
- `Store` is the application store, a class with one `seq` field per list and one method per action. Every method states the whole new state.
- `Campaigns` holds the campaign page:
  - recipient selection and campaign creation;
  - `startCampaign`, whose loop is proved against recursive functions: the links opened, the logs added, the pauses taken and the send count.
- `Gateway` covers the WhatsApp Cloud API client: credential checks, phone formatting, the body component, and the classification of the three kinds of error. Each HTTP exchange is an input of the model.
- `Webhook` is the webhook server:
  - the verify handshake and the envelope parser;
  - de-duplicating `addMessage` and the POST loop over entries;
  - the configuration merge and the newest-first listing.
  - The conversation files are a map from phone number to conversation.
- `Feed` is the realtime message feed: INSERT/UPDATE reducers, grouping into threads (a loop proved against `Bucket`/`Phones`), thread construction and the optimistic mark-as-read.
- `Conversations`, `Logs`, `Dashboard` and `Templates` are the small page selectors. `Templates` also has the template dialog as a class.
- `Wrappers`, `Seqs` and `Text` are helpers. They hold `Option`/`Result`, sequence filtering, search and sorting, and the JavaScript string built-ins the code uses: `trim`, `\s`, `length` in UTF-16 code units, ASCII `toLowerCase`, `includes`, `split`, `join` and replace-all.

Timestamps are integers: milliseconds for the server and the ISO strings of the app, both modelled as `int`. Generated ids and the clock are parameters.

## Model

| member | source | states |
|---|---|---|
| Csv.ParseCsv | src/pages/Contacts.tsx:25-75 | the character loop, with its one-character look-ahead for `""` and CRLF, returns exactly the rows of the recursive scanner run over the text with the BOM removed, blank rows dropped |
| Csv.Step | src/pages/Contacts.tsx:32-65 | each scanner step consumes one or two characters (two only for `""` inside quotes and for CRLF outside) and never more than remain |
| Csv.BomDropped | src/pages/Contacts.tsx:27 | a text with a leading BOM parses to the same rows as the text without it |
| Csv.RowsHaveContent | src/pages/Contacts.tsx:56-71 | every returned row has a cell that is not blank after trimming |
| Csv.CrLfEndsRow | src/pages/Contacts.tsx:51-62 | outside quotes, CRLF closes exactly one row and both characters are consumed |
| Csv.CrEndsRow | src/pages/Contacts.tsx:51-62 | outside quotes, a lone CR closes exactly one row |
| Csv.LfEndsRow | src/pages/Contacts.tsx:51-62 | outside quotes, a lone LF closes exactly one row |
| Csv.CommaEndsCell | src/pages/Contacts.tsx:45-49 | outside quotes, a comma closes the cell and keeps the row open |
| Csv.DoubledQuoteInQuotes | src/pages/Contacts.tsx:35-40 | inside quotes, `""` adds one literal quote to the cell |
| Csv.SeparatorInQuotes | src/pages/Contacts.tsx:45-64 | inside quotes, a comma, CR or LF is cell content |
| Csv.TrailingTerminator | src/pages/Contacts.tsx:51-72 | a text ending in a newline outside quotes parses to the same rows as without that newline |
| Csv.EscapeCsvValue | src/pages/Contacts.tsx:133-136 | the value is quoted, with inner quotes doubled, exactly when it holds a quote, comma, CR or LF; otherwise it is unchanged |
| Csv.DoubleQuotesSpecial | src/pages/Contacts.tsx:134-135 | doubling the quotes does not change whether a value needs quoting |
| Csv.NoQuoteUnchanged | src/pages/Contacts.tsx:134 | a value without quotes is left as it is by the doubling |
| Csv.CellRun | src/pages/Contacts.tsx:35-64 | scanning an escaped cell gives back the original value, whatever it contains |
| Csv.RoundTrip | src/pages/Contacts.tsx:262-264 | scanning the CRLF-joined escaped rows returns the original rows with blank rows dropped, when the first cell does not start with a BOM |
| Csv.ExactRoundTrip | src/pages/Contacts.tsx:262-264 | rows that each have a non-blank cell, the first not starting with a BOM, are returned unchanged by export then parse |
| Contacts.SplitTags | src/pages/Contacts.tsx:77-81 | every tag is trimmed, non-empty and free of `;`, `,` and `|` |
| Contacts.SplitTagsEmpty | src/pages/Contacts.tsx:77-81 | an empty tags cell gives no tags |
| Contacts.SplitTagsJoin | src/pages/Contacts.tsx:77-81 | clean tags joined with `, ` at export split back into the same tags |
| Contacts.ManualTags | src/pages/Contacts.tsx:179 | the add form's tags are trimmed, non-empty and free of commas |
| Contacts.NormalizePhoneShape | src/pages/Contacts.tsx:83-90 | the result is empty exactly when the input is blank, and it never holds white space |
| Contacts.NormalizePhonePlus | src/pages/Contacts.tsx:86-89 | a trimmed input starting with `+` keeps its own prefix, with white space removed |
| Contacts.NormalizePhoneCountryCode | src/pages/Contacts.tsx:86-89 | any other non-blank input is put behind the country code |
| Contacts.NormalizePhoneIdempotent | src/pages/Contacts.tsx:83-90 | normalising an international result again changes nothing |
| Contacts.DetectColumns | src/pages/Contacts.tsx:100-105 | a header is detected iff some lower-cased cell is `name`, `phone` or `tags`; each index is the first such cell, or -1 |
| Contacts.CellValue | src/pages/Contacts.tsx:108-111 | the header index when there is one, else the fixed position, and `''` past the end of the row |
| Contacts.HeaderFallback | src/pages/Contacts.tsx:103-111 | a header missing a column makes that field read from its fixed position |
| Contacts.ContactFromRowSpec | src/pages/Contacts.tsx:115-127 | a row is skipped iff its phone cell is blank; a kept row has the normalised phone and is named `Unknown` when the name cell is empty |
| Contacts.ContactsFromRowsImported | src/pages/Contacts.tsx:115-128 | at most one contact per row, each with a name, a phone without white space and clean tags |
| Contacts.ContactsFromCsvSpec | src/pages/Contacts.tsx:92-131 | every imported contact has a name and a phone, at most one per row; with a header the result is all rows' contacts less the header row's own, without one it is every row's contacts |
| Contacts.ContactsFromRowsAppend | src/pages/Contacts.tsx:115-128 | the rows are read in order: two runs of rows give their contacts one after the other |
| Contacts.ContactsFromRowsCons | src/pages/Contacts.tsx:115-128 | the first row's contact comes before the rest's |
| Contacts.HeaderOnly | src/pages/Contacts.tsx:106-115 | a file holding only a header imports nothing |
| Contacts.ParseContactsFromCsv | src/pages/Contacts.tsx:113-130 | the `forEach` push loop returns exactly the contacts of the row-by-row definition |
| Contacts.HandleExport | src/pages/Contacts.tsx:246-264 | an empty list is refused; otherwise the file is the header plus one escaped row per listed contact |
| Contacts.ExportImport | src/pages/Contacts.tsx:256-264 | importing an exported file gives back every contact's name, phone and tags, in order, for contacts in the form the importer produces (trimmed name, `+` phone without white space, clean tags) |
| Contacts.ImportResult | src/pages/Contacts.tsx:190-243 | nothing to read, an unreadable file and a file without valid contacts are errors; once there is text to read, the import succeeds iff it yields a contact, and then hands exactly those contacts to the store |
| Contacts.ValidateContact | src/pages/Contacts.tsx:20-23 | the form passes iff the trimmed name is non-empty and at most 100 UTF-16 code units long and the trimmed phone non-empty and at most 20; the name's rules are reported before the phone's, each with its message |
| Text.Utf16Length | src/pages/Contacts.tsx:21-22 | the length zod's `min`/`max` measure lies between the character count and twice it, and is zero only for the empty string |
| Text.Utf16LengthBmp | src/pages/Contacts.tsx:21-22 | without characters outside the Basic Multilingual Plane the length is the character count |
| Text.Utf16LengthAstral | src/pages/Contacts.tsx:21-22 | a string of characters outside the Basic Multilingual Plane has twice as many code units as characters |
| Contacts.AsWrittenDoublePrefix | src/pages/Contacts.tsx:172-174 | as written, a `+` number typed with a leading space gets the country code put in front of its own prefix |
| Contacts.CorrectedKeepsPrefix | src/pages/Contacts.tsx:172-178 | the corrected add handler keeps that number's own prefix |
| Contacts.AddedContactValid | src/pages/Contacts.tsx:161-180 | a valid form gives a contact with a name and a phone, and a `+` number keeps its prefix |
| Contacts.SubmitContact | src/pages/Contacts.tsx:161-188 | an invalid form reports its rule and leaves the store alone; a valid one appends exactly one contact, the corrected `AddedContact` (see Findings), and changes no other list |
| Contacts.FilteredContacts | src/pages/Contacts.tsx:155-159 | an order-preserving subsequence holding each matching contact as often as the store does and no other; an empty search lists everyone |
| Store.AppStore.constructor | src/store/appStore.ts:90-95 | the store starts empty with the default templates and settings |
| Store.AppStore.LoadFromStorage | src/store/appStore.ts:97-107 | nothing stored changes nothing; otherwise missing lists become empty, missing or empty templates become the defaults, and missing settings become the defaults |
| Store.TemplatesOrDefault | src/store/appStore.ts:102 | a stored non-empty template list is kept; otherwise the default templates are used |
| Store.AppStore.AddContact | src/store/appStore.ts:110-122 | the contact is appended with its id and time; the other lists are unchanged |
| Store.AppStore.RemoveContact | src/store/appStore.ts:124-130 | the contacts become the old ones without that id, in order; the other lists are unchanged |
| Store.ContactsWithout | src/store/appStore.ts:126 | an order-preserving subsequence holding each contact of another id as often as the list does, and none with the id |
| Store.AppStore.UpdateContact | src/store/appStore.ts:132-140 | only contacts with that id change, and only in the patched fields |
| Store.UpdateContacts | src/store/appStore.ts:134-136 | length and order are kept; a contact with the id is patched and every other one is unchanged |
| Store.PatchContactFields | src/store/appStore.ts:135 | a field changes exactly when the patch names it |
| Store.EmptyContactPatch | src/store/appStore.ts:135 | an empty patch changes nothing |
| Store.AppStore.ImportContacts | src/store/appStore.ts:142-157 | the imported contacts are appended in input order, each with its id and time |
| Store.StampContacts | src/store/appStore.ts:145-151 | one stored contact per imported one, in order, with the input's fields |
| Store.AppStore.AddTemplate | src/store/appStore.ts:159-171 | the template is appended; the other lists are unchanged |
| Store.AppStore.RemoveTemplate | src/store/appStore.ts:173-179 | the templates become the old ones without that id, in order |
| Store.TemplatesWithout | src/store/appStore.ts:175 | an order-preserving subsequence holding each template of another id as often as the list does, and none with the id |
| Store.AppStore.UpdateTemplate | src/store/appStore.ts:181-189 | only templates with that id change, and only in the patched fields |
| Store.UpdateTemplates | src/store/appStore.ts:183-185 | length and order are kept; a template with the id is patched and every other one is unchanged |
| Store.AppStore.AddCampaign | src/store/appStore.ts:191-204 | the campaign is appended with a send count of 0 |
| Store.StampCampaign | src/store/appStore.ts:195-199 | a new campaign keeps every given field and starts with `sentCount` 0 |
| Store.AppStore.UpdateCampaign | src/store/appStore.ts:206-214 | only campaigns with that id change, and only in the patched fields |
| Store.UpdateCampaigns | src/store/appStore.ts:208-210 | length and order are kept; a campaign with the id is patched and every other one is unchanged |
| Store.UpdateCampaignsTwice | src/store/appStore.ts:206-214 | two updates of one id equal one update with the combined patch |
| Store.PatchCampaignThen | src/store/appStore.ts:209 | patching twice equals patching once with the later fields winning |
| Store.AppStore.AddLog | src/store/appStore.ts:216-224 | the new log goes first, followed by the old logs, at most 500 |
| Store.PushCapped | src/store/appStore.ts:219 | the new entry is at index 0, the rest is a prefix of the old list, and the length is min(old + 1, 500) |
| Store.PushAllNewestFirst | src/store/appStore.ts:216-224 | after several pushes the newest entries come first, then the old log, cut to the cap |
| Store.AppStore.UpdateSettings | src/store/appStore.ts:226-232 | the settings become the old ones merged with the patch |
| Store.PatchSettingsKeeps | src/store/appStore.ts:228 | every field absent from the patch keeps its value |
| Store.FindContact | src/pages/Campaigns.tsx:100 | no contact is found iff none has the id; a found one has the id and is in the list |
| Store.FindContactFirst | src/pages/Campaigns.tsx:100 | the contact found is the first one with the id |
| Store.FindCampaign | src/pages/Campaigns.tsx:93-94 | no campaign is found iff none has the id; a found one has the id and is in the list |
| Store.FindCampaignFirst | src/pages/Campaigns.tsx:93-94 | the campaign found is the first one with the id |
| Campaigns.ToggleContact | src/pages/Campaigns.tsx:52-58 | the id's membership flips, others keep theirs, an absent id is appended at the end, and removal keeps the others in order, each as often as before |
| Campaigns.ToggleRemovesInPlace | src/pages/Campaigns.tsx:52-58 | unticking an id that occurs once takes it out where it stood and leaves the rest as it was |
| Campaigns.ToggleTwice | src/pages/Campaigns.tsx:52-58 | toggling an absent id twice restores the selection |
| Campaigns.ContactIds | src/pages/Campaigns.tsx:64 | the ids of all contacts, in store order |
| Campaigns.SelectAllContacts | src/pages/Campaigns.tsx:60-66 | a selection as long as the contact list is cleared; otherwise every contact id is selected in store order |
| Campaigns.SelectAllTwice | src/pages/Campaigns.tsx:60-66 | selecting all twice clears the selection |
| Campaigns.SelectTemplate | src/pages/Campaigns.tsx:45-50 | the first template with the id fills the message and records the id; an unknown id changes nothing |
| Campaigns.CampaignRequest | src/pages/Campaigns.tsx:68-84 | a blank name, a blank message or an empty selection is refused; otherwise a draft with the selection as recipients and its length as total |
| Campaigns.SubmitCampaign | src/pages/Campaigns.tsx:68-90 | a refused dialog stays as it is and the store is untouched; otherwise one campaign is added and the dialog closes empty |
| Campaigns.PersonalizePlain | src/pages/Campaigns.tsx:103 | a message without `{{name}}` is sent unchanged |
| Campaigns.PersonalizeGreeting | src/pages/Campaigns.tsx:103 | a leading `{{name}}` becomes the contact's name and the rest is personalised too |
| Campaigns.StartCampaign | src/pages/Campaigns.tsx:92-132 | an unknown id changes nothing; otherwise campaigns with the id end `completed`, and the links, pauses, logs and send count are those of the specification functions |
| Campaigns.Process | src/pages/Campaigns.tsx:98-128 | one loop iteration extends each output by what recipient `i` contributes, and nothing more |
| Campaigns.Deliver | src/pages/Campaigns.tsx:103-122 | one resolved recipient opens one link, adds one `sent` log and sets the send count to its index plus one |
| Campaigns.ResolvedSound | src/pages/Campaigns.tsx:100-101 | only recipient ids that resolve to a contact are processed |
| Campaigns.ResolvedIncreasing | src/pages/Campaigns.tsx:98 | recipients are processed in recipient order |
| Campaigns.ResolvedComplete | src/pages/Campaigns.tsx:98-101 | every recipient that resolves is processed |
| Campaigns.OneEachPerResolved | src/pages/Campaigns.tsx:98-120 | exactly one link and one log per resolved recipient, the `k`-th of each for the `k`-th resolved recipient |
| Campaigns.LogsAreSent | src/pages/Campaigns.tsx:103-120 | every log is `sent`, without error, for this campaign, with `{{name}}` replaced by the contact's name |
| Campaigns.PausesBetween | src/pages/Campaigns.tsx:125-127 | a pause of the configured seconds follows only a resolved recipient that is not the last index |
| Campaigns.PausesComplete | src/pages/Campaigns.tsx:125-127 | every resolved recipient except at the last index is followed by a pause |
| Campaigns.LastSentIsLastResolved | src/pages/Campaigns.tsx:122 | the final send count comes from the last resolved recipient |
| Campaigns.Finished | src/pages/Campaigns.tsx:122-130 | the campaign ends `completed` with send count 1 + the last resolved index, or its old count when no recipient resolved |
| Campaigns.ProgressThenCount | src/pages/Campaigns.tsx:122 | setting the send count after the earlier patches records recipient `i` as the last one sent |
| Gateway.NetworkError | src/lib/whatsapp-api.ts:106-115 | a non-provider failure becomes `NETWORK_ERROR` with code 500 and a `Network error: ` prefix before its message |
| Gateway.Classify | src/lib/whatsapp-api.ts:96-115 | success iff the provider accepted; a provider error is passed on unchanged; anything else is a network error |
| Gateway.FetchTemplates | src/lib/whatsapp-api.ts:73-116 | no request without an account id and a token (a configuration error); otherwise a failed reply gives exactly `Classify`'s error (a provider or network error), an accepted one always succeeds, and a body without `data` gives `[]` |
| Gateway.FormattedPhone | src/lib/whatsapp-api.ts:138-140 | digits only: a `+` number's own digits, otherwise the country code's digits followed by the number's |
| Gateway.FormattedPhoneStable | src/lib/whatsapp-api.ts:138-140 | a formatted number sent again with a `+` is unchanged, whatever the country code |
| Gateway.Components | src/lib/whatsapp-api.ts:143-150 | one `body` component holding the variables in order exists iff there are variables |
| Gateway.SendTemplateMessage | src/lib/whatsapp-api.ts:121-196 | no request without a phone-number id and a token (a configuration error); otherwise the result is the classified answer |
| Gateway.SendPayload | src/lib/whatsapp-api.ts:153-172 | the body addresses the formatted number and names the template and language; `components` is omitted without variables |
| Gateway.ValidateCredentials | src/lib/whatsapp-api.ts:201-221 | true iff both credentials are present and the request answered OK; never an error |
| Gateway.ValidatedCanSend | src/lib/whatsapp-api.ts:204-206 | credentials that validate also let a send go out |
| Webhook.MergeConfig | server.ts:44-46 | each supplied field overwrites, and every other field is kept |
| Webhook.MergeConfigIdempotent | server.ts:44-46 | saving the same patch twice equals saving it once, and an empty patch changes nothing |
| Webhook.Verify | server.ts:197-203 | 200 with the challenge iff the mode is `subscribe` and the token is the configured one; otherwise 403 `Forbidden` |
| Webhook.ConfigView | server.ts:305-312 | the verify token and whether it is set |
| Webhook.DisplayText | server.ts:141-152 | text gives the body; image, video and document give `[TYPE]`, plus `: caption` iff there is a caption; audio, sticker and reaction have fixed labels; other types give no text |
| Webhook.ParseWebhookMessage | server.ts:120-163 | none without a first message; otherwise an incoming record from `msg.from` with type defaulting to `unknown` and the display text |
| Webhook.ParseReadsFirst | server.ts:122-129 | only the first change and its first message are read |
| Webhook.Lookup | server.ts:77-91 | the stored conversation of the number, or a new empty one at the current time |
| Webhook.Record | server.ts:104-113 | a known id changes nothing; otherwise exactly one message is appended, `lastMessageAt` is its time, and a name replaces the old one only when non-empty |
| Webhook.Ingest | server.ts:100-117 | a duplicate id leaves the store as it was; otherwise only that number's conversation changes |
| Webhook.IngestValid | server.ts:100-117 | conversations stay filed under their number with distinct message ids |
| Webhook.IngestHolds | server.ts:100-117 | the message is stored afterwards and no stored message is lost |
| Webhook.IngestTwice | server.ts:104-107 | a message delivered twice is stored once |
| Webhook.DeliveredValid | server.ts:213-219 | a whole delivery keeps conversations filed with distinct ids |
| Webhook.DeliveredStored | server.ts:213-219 | after a delivery every message it carried is stored |
| Webhook.DeliveredFixed | server.ts:213-219 | a delivery whose messages are all stored changes nothing |
| Webhook.Redelivery | server.ts:213-219 | a delivery repeated at any later time leaves the store as the first one did |
| Webhook.Files | server.ts:237-242 | each listed conversation is a stored one |
| Webhook.FilesComplete | server.ts:237-242 | every `.json` file of a stored number is listed |
| Webhook.Listing | server.ts:232-257 | the listing is a permutation of the files' conversations, ordered by `lastMessageAt` newest first |
| Webhook.ListingComplete | server.ts:232-257 | a conversation with a file is in the listing |
| Webhook.ListingStable | server.ts:244-247 | conversations with the same `lastMessageAt` keep the order of the file list (the sort is stable) |
| Webhook.Conversations | server.ts:260-274 | an empty last path segment is not found; any other gives that number's conversation or an empty one |
| Webhook.OutgoingMessage | server.ts:282-289 | from `me`, outgoing, of type text, with the given id or `out_` followed by the time |
| Webhook.WebhookServer.constructor | server.ts:31-41 | the stored configuration merged over the defaults, and the conversations on disk |
| Webhook.WebhookServer.SaveConfig | server.ts:44-48 | the configuration becomes the merge; conversations are unchanged |
| Webhook.WebhookServer.PostConfig | server.ts:315-328 | 500 and no change for a body that is not JSON; otherwise 200 and the merge |
| Webhook.WebhookServer.AddMessage | server.ts:100-117 | the conversations become the ingest of the message, and the store stays valid |
| Webhook.WebhookServer.HandleWebhook | server.ts:207-227 | 500 and no change for a body that is not JSON; otherwise 200 after every entry's message is added in order |
| Webhook.WebhookServer.PostOutgoing | server.ts:277-302 | 500 and no change for a body that is not JSON; otherwise 200 after the outgoing message is added; the conversation invariant is kept |
| Feed.Inserted | src/hooks/useSupabaseMessages.ts:68-74 | a known id leaves the list; otherwise the message is appended at the end |
| Feed.InsertedDistinct | src/hooks/useSupabaseMessages.ts:68-74 | ids stay distinct, the message is present afterwards, and inserting it again changes nothing |
| Feed.Updated | src/hooks/useSupabaseMessages.ts:86-88 | length is kept and only entries with the matching id are replaced |
| Feed.UpdatedKeepsIds | src/hooks/useSupabaseMessages.ts:86-88 | ids and their distinctness are kept, an unknown id changes nothing, and repeating the update changes nothing |
| Feed.MarkAsRead | src/hooks/useSupabaseMessages.ts:130-149 | on error nothing changes; otherwise every unread message of the number, of either direction, becomes read and nothing else changes |
| Feed.Bucket | src/hooks/useSupabaseMessages.ts:106-111 | only messages of the number, and every message of the number |
| Feed.BucketIsFilter | src/hooks/useSupabaseMessages.ts:106-111 | a bucket is the feed filtered by the number, in feed order |
| Feed.BucketExact | src/hooks/useSupabaseMessages.ts:106-111 | a bucket is an order-preserving subsequence of the feed holding each message of the number as often as the feed does, and no other |
| Feed.Phones | src/hooks/useSupabaseMessages.ts:106-111 | every number that occurs, once each |
| Feed.Group | src/hooks/useSupabaseMessages.ts:103-114 | the grouping loop keys the dictionary by exactly the numbers that occur, each holding that number's `Bucket`: its messages in feed order (`Feed.BucketIsFilter`) |
| Feed.LatestFrom | src/hooks/useSupabaseMessages.ts:119-123 | the maximum of the start value and every `created_at` |
| Feed.MakeThread | src/hooks/useSupabaseMessages.ts:115-125 | a thread holds the same messages sorted by `created_at`, `lastMessageAt` is their maximum, and `unreadCount` counts the incoming unread messages, at most the thread length |
| Feed.MakeThreadStable | src/hooks/useSupabaseMessages.ts:116-118 | messages with the same `created_at` keep their feed order in the thread (the sort is stable) |
| Feed.LatestOfSorted | src/hooks/useSupabaseMessages.ts:119-123 | over messages sorted by `created_at`, the reduction from the first one gives the time of the last one |
| Feed.MakeThreadLastTime | src/hooks/useSupabaseMessages.ts:116-123 | the last message of a thread carries its `lastMessageAt` |
| Feed.MakeThreadLast | src/hooks/useSupabaseMessages.ts:116-123 | the last message of a thread is the one, among those at `lastMessageAt`, that came last in the feed |
| Feed.Threads | src/hooks/useSupabaseMessages.ts:103-127 | the threads are a permutation of one thread per number, ordered by `lastMessageAt` newest first |
| Feed.ConversationThreads | src/hooks/useSupabaseMessages.ts:103-127 | the hook's thread computation gives exactly those threads |
| Feed.ThreadsDistinct | src/hooks/useSupabaseMessages.ts:103-127 | no two threads share a number |
| Feed.ThreadsContents | src/hooks/useSupabaseMessages.ts:106-118 | every thread is non-empty, holds its bucket's messages, and holds each message of its number as often as the feed does and no other |
| Feed.ThreadsCover | src/hooks/useSupabaseMessages.ts:106-114 | every message is filed in a thread |
| Feed.ThreadsOrdered | src/hooks/useSupabaseMessages.ts:116-126 | threads run newest first, their messages oldest first, `lastMessageAt` is the newest time, and unread counts are at most the length |
| Feed.MarkedThreadRead | src/hooks/useSupabaseMessages.ts:141-147 | after marking a number read, its thread has no unread messages |
| Conversations.ContactName | src/pages/Conversations.tsx:20-26 | the name of the first contact whose digits contain the number's or are contained in them; the number itself when none matches or that name is empty |
| Conversations.ContactNameExact | src/pages/Conversations.tsx:20-26 | a contact stored under the very number names the thread when no earlier contact matches |
| Conversations.LastMessage | src/pages/Conversations.tsx:72-76 | `''` for an empty thread, otherwise the newest message's content |
| Conversations.FilteredConversations | src/pages/Conversations.tsx:79-86 | an order-preserving subsequence holding each thread whose name, number or preview contains the lower-cased query as often as the list does, and no other |
| Conversations.EmptySearchKeepsAll | src/pages/Conversations.tsx:79-80 | an empty search keeps every thread |
| Conversations.SelectConversation | src/pages/Conversations.tsx:46-51 | the thread is selected, and its number is marked read iff it has unread messages |
| Conversations.Resync | src/pages/Conversations.tsx:28-36 | a selection keeps its number, and it is replaced only by a live thread of that number |
| Conversations.OpeningClearsUnread | src/pages/Conversations.tsx:28-51 | opening a thread with unread messages and marking it read leaves the resynced selection with nothing unread |
| Logs.FilteredLogs | src/pages/Logs.tsx:29-37 | an order-preserving subsequence holding each log that matches the search and, unless `all`, has the chosen status as often as the list does, and no other |
| Logs.EmptySearchMatches | src/pages/Logs.tsx:30-33 | an empty search matches every log |
| Logs.InitialShowsAll | src/pages/Logs.tsx:29-37 | with no search and all statuses every log is listed |
| Logs.StatusNarrows | src/pages/Logs.tsx:35 | choosing a status keeps exactly the searched logs of that status |
| Dashboard.DashboardStats | src/pages/Dashboard.tsx:11-14 | the contact and campaign totals, `sent` or `delivered` logs as sent, `pending` logs as pending, and sent + pending is at most the log count |
| Dashboard.SentPendingBound | src/pages/Dashboard.tsx:13-14 | no log counts as both sent and pending, so failed logs count in neither |
| Dashboard.LogCounts | src/pages/Dashboard.tsx:13-14 | appending a log raises exactly the counter of its status by one |
| Dashboard.MarkSentMoves | src/pages/Dashboard.tsx:13-14 | a log going from pending to sent moves one unit from one counter to the other |
| Templates.SaveRequest | src/pages/Templates.tsx:24-40 | a blank name or content is refused; an edit patches the name and content of the edited id; otherwise a new template is created |
| Templates.EditSaveUnchanged | src/pages/Templates.tsx:34-36 | saving an unchanged edit of a template whose id no other template shares leaves the templates as they were |
| Templates.EditSaveChanges | src/pages/Templates.tsx:34-36 | an edit changes exactly the edited template's name and content |
| Templates.TemplateEditor.constructor | src/pages/Templates.tsx:20-22 | the dialog starts closed, with no edit and an empty form |
| Templates.TemplateEditor.SetName | src/pages/Templates.tsx:92 | typing a name changes only the name |
| Templates.TemplateEditor.SetContent | src/pages/Templates.tsx:102 | typing content changes only the content |
| Templates.TemplateEditor.Edit | src/pages/Templates.tsx:47-51 | the template's name, content and id are loaded and the dialog opens |
| Templates.TemplateEditor.SetOpen | src/pages/Templates.tsx:69-75 | closing resets the form and the edit; opening keeps them |
| Templates.TemplateEditor.Save | src/pages/Templates.tsx:24-45 | a refused save changes nothing; an edit updates its template and adds none; a create appends exactly one; a successful save closes the dialog with an empty form and no edit |

## Left out

- Ids and clocks (`generateId`, `new Date()`, `Date.now()`) are parameters. The model claims no uniqueness, because the source guarantees none. ISO timestamps and dates are integers, and date formatting is not modelled.
- Browser and server I/O is an input or output of the model and is not modelled:
  - `localStorage`;
  - `FileReader`, `Blob` and the download link;
  - `fetch` and its JSON;
  - the Bun server's routing, CORS, OPTIONS and static files;
  - file-system reads, writes and `existsSync`.
  - A body that is not JSON is `None`. A configuration file that is not valid JSON is treated like a missing one.
- A JSON value of the wrong type (a non-string configuration field, a non-array `entry`) is not modelled. Fields are typed, and a JavaScript `TypeError` mid-loop is not reproduced.
- `window.open` is the returned list of links. The WhatsApp link text is the phone digits and the personalised message; `encodeURIComponent` is not modelled.
- `setTimeout` pauses are a returned list of pause events, each with its length in milliseconds; time itself is not modelled.
- Toasts and their texts are left out, including the "Sent N messages" count after a campaign, which is UI.
- Campaigns.StartCampaign: the contact list and the delay are read once, when the loop starts, as in the source closure. Concurrent edits to the store during the awaited pauses are not modelled.
- The initial load `fetchMessages`, the Supabase client and the realtime channel subscription are left out. Only the reducers applied to their payloads are modelled. Marking as read takes the database outcome as the `failed` input.
- Webhook.Listing: `readdir` order is not modelled. Files are an input sequence, and conversations with equal `lastMessageAt` keep the order of that sequence (`Webhook.ListingStable`).
- Feed.Threads: the `Object.entries` order of integer-like keys is not modelled. Threads are stated as a permutation sorted newest first, so threads with equal `lastMessageAt` may come out in any order.
- Webhook concurrency, the race between two requests on `addMessage`'s read-modify-write, is not modelled. The model is sequential.
- Regular expressions are explicit character-class predicates:
  - `\s` and `trim` use JavaScript's white-space and line-terminator characters;
  - `toLowerCase` is ASCII only;
  - the `$` patterns of `String.replace` are not modelled, and `{{name}}` is replaced literally.
- Zod's messages are the given texts for `min(1)` and its default text for `max`. Only the first failing rule is kept. Lengths are JavaScript's UTF-16 code units (`Text.Utf16Length`): a character outside the Basic Multilingual Plane counts twice.
- Gateway.Classify: the message of a rejected reply without an `error` object is fixed to the text of V8's `TypeError` (`NoErrorObject`). Other JavaScript engines word that error differently, and the model does not cover them.
- Templates: `handleCopy` (the clipboard) and the delete button's direct `removeTemplate` call are left out. The latter is `Store.AppStore.RemoveTemplate`.
- `src/pages/Settings.tsx`, `src/lib/i18n.ts`, `src/lib/supabase.ts` and the presentation components are not part of this model. Settings merging is `Store.AppStore.UpdateSettings`.
- Contacts.AddedContact: this is the corrected add handler, which normalises the trimmed phone (see Findings). `Contacts.AddedContactAsWritten` is the code as written.

## Findings

| source | as written | input that shows it | evidently intended | confidence | as-written member | corrected member |
|---|---|---|---|---|---|---|
| src/pages/Contacts.tsx:172-178 | the add handler tests `startsWith('+')` on the untrimmed phone and prefixes the country code to that untrimmed value (lines 172-174); white space is stripped only afterwards (line 178) | phone ` +4912345` (one leading space), default country code `+1`: the stored phone is `+1+4912345` | an already international number keeps its own prefix, as `normalizePhone` does for imports | not executed | Contacts.AsWrittenDoublePrefix | Contacts.CorrectedKeepsPrefix |
