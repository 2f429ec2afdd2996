# GalMail: verified models of its protocols and codecs

GalMail is a local-first mail client with a small hosted plane. This project models the parts of it
that carry invariants and proves them, for all inputs, all runs and all interleavings:

- **Blind relay** (`RelayBlobs`, `RelayRaces`, `RelayReads`, `RelayDevices`, `RelayRequests`): requests run as handlers whose SQL statements and
  object-store calls are atomic steps that interleave freely; a crashed request is one that takes no
  further step. Blob rows always point at the bytes they describe, revisions never decrease, replays
  are refused, accepted requests are genuine and genuine ones accepted, invites admit one device, and an
  account never loses its last active device.
- **MIME** (`MimeGenerator`, `MimeHeaders`, `MimeParser`, `MimeMultipart`, `MimeAddresses`, `MimeRoundTrip`,
  `MimeMessages`, `MimeBodies`, `MimeForms`, `MimeParameters`, `MimeWords`, `MimeContents`, `Base64`,
  `QuotedPrintable`, `Utf8`, `JsText`): the printer, the recursive parser, the theorem that parsing what
  was printed gives back the draft, and what the parser makes of every other spelling of a message.
- **Outbox** (`Outbox`, `OutboxReplies`): coalesced autosaves, delayed rows, undo, retry and provider draft ids, with
  operations that run while the flush waits for a provider, and the status each reply earns.
- **MCP** (`StdioFraming`, `ApprovalGate`, `ToolAuthorization`, `ToolOutcomes`): framing that does not depend on how
  the stream is cut, approvals that are final, and tool calls that reach the host only with an
  approval of their own.
- **Encrypted local store** (`KeyBootstrap`, `Envelope`, `RecordStore`): crash-safe key bootstrap and
  reset, envelopes bound to their record, and a record store that refines a plain map.
- **Consent revocation** (`Revocation`, `RevocationOutcomes`): a queue consumer and a retention sweep over linked rows.
- **Cursors and the unified inbox** (`Cursor`, `UnifiedInbox`): one total order on cursor tokens, and
  a merge that is newest over all accounts. `Decimal` and `CodeOrder` hold the facts about decimal
  numerals and orders that cursors, object keys and frame lengths share.

Code that updates state in place is a class or a method proved against a specification function;
protocols are state machines over those functions, and the theorems are about every run of them.
Ciphers, clocks, random numbers, JSON, providers and the network are parameters. Where a property
holds only under a condition, the condition is proved exact: which replay windows, delays and
deletions are safe, which reset orders survive crashes, which runs and races of PUTs keep the store
sound, which autosaves keep one provider draft, which consents are revoked, which cursors commute,
which tool calls are asked for.

`dafny verify dfyconfig.toml` checks the whole project (Dafny 4.11).

## Where the code surprises

- `packages/mcp/src/tools.ts:73` says that a send always needs a human approval; with `autoApprove`
  set it is not asked for. `ToolAuthorization.EverySendIsApproved` states what the code does.
- Blob PUTs that reuse the stored revision are answered as stale, but only after their key,
  which is the stored row's key, was deleted (`services/blind-relay/src/server.ts:729-742`). Among
  PUTs that do not overlap this is the only way to lose an object: `RelayBlobs.PutRunIsSafeExactly`
  and, with crashes, `RelayBlobs.CrashedPutsKeepRowsBacked`.
- Of PUTs that overlap, one that finds the row of another with the same revision deletes the object
  they share, and a newer one that read before an older one inserted leaves the older object behind.
  `RelayRaces.RacesKeepObjectsExactly` and `RelayRaces.RacesLeaveNothingBehindExactly` say exactly
  which PUTs are exposed to each.
- An autosave queued while the first save of its draft waits for the provider finds no open row and
  no id, so it creates a second provider draft (`packages/core-api/src/memory-sync.ts:155-266`).
  `Outbox.AutosaveIsSafeExactly` proves that, with one flush at a time, this is the only autosave
  that does.
- Cursor tokens such as `007` or `1e3` tie with the history id of the same number, so the token kept
  depends on the order of delivery (`packages/core-api/src/cursor.ts:25-33`).
  `Cursor.DeliveriesCommuteExactly` and `Cursor.OnlyHistoryIdsCommute` say for which tokens; with
  tokens that are no numbers beside them, comparison can even go round in a circle
  (`Cursor.OtherNumeralsCycle`).
- Deleting an account drops its nonces, so after a new bootstrap of the same account and device an
  old request is fresh again (`services/blind-relay/src/server.ts:954-985`). So does a revocation: a
  copy of a request that has passed the SELECT of its verification is then accepted
  (`RelayDevices.RevocationLetsACopyPass`).
- A verification that takes 300 seconds or longer can accept a replay, because the nonce may be
  purged between its clock test and its INSERT (`RelayDevices.RelayNeverReplays`).
- A consent granted between the SELECT and the batch of a withdrawal is deleted without its token
  being revoked, and the receipt can say "complete" (`services/opt-in-processor/src/server.ts:480-554`).
  `Revocation.ConsentIsSafeExactly` proves that this is the only such consent.

- A printable display name with a comma is printed without quotation marks, so the parser takes the text
  before the comma for an address (`packages/core-api/src/mime.ts:211-225`,
  `MimeAddresses.CommaInNameSplits`).
- White space between two encoded words is kept, where section 6.2 of RFC 2047 drops it
  (`packages/core-api/src/mime.ts:134-145`, `MimeWords.PiecesAreShown`).

## Model

| member | source | states |
|---|---|---|
| `RelayBlobs.ObjectKeyIsInjective` | services/blind-relay/src/server.ts:370-376 | two revisions never share an object key, whatever the account ids, because blob ids hold no '/' |
| `RelayBlobs.BlobRelay.PutBlob` | services/blind-relay/src/server.ts:695-780 | the body of the PUT handler run alone does exactly the atomic steps of the machine; a malformed envelope or content type changes nothing |
| `RelayBlobs.NextKeepsInv` | services/blind-relay/src/server.ts:720-778 | every step of any handler keeps the protocol invariant and lowers no stored revision |
| `RelayBlobs.RevisionsNeverDecrease` | services/blind-relay/src/server.ts:743-773 | over every interleaving of PUTs with distinct revisions, GETs and sweeps, no row disappears and no revision decreases |
| `RelayBlobs.EveryRowIsBacked` | services/blind-relay/src/server.ts:720-778 | in every reachable state a row's object exists and has the hash, length and version of the row |
| `RelayBlobs.GetServesTheHashItSends` | services/blind-relay/src/server.ts:795-822 | a GET that raced with anything serves bytes with the hash it sends, or misses them only because a newer revision replaced its row |
| `RelayBlobs.AnsweredPutsLeaveTheNewest` | services/blind-relay/src/server.ts:729-779 | an answered PUT, accepted or stale, leaves a row at least as new as itself; it never ends in a constraint failure |
| `RelayBlobs.KeyIsNeverTaken` | services/blind-relay/migrations/0001_hosted_plane.sql:56 | the UNIQUE constraint on object keys is never violated |
| `RelayBlobs.SweepFindsNothing` | services/blind-relay/src/server.ts:1056-1071 | a retention sweep touches no row or object that a PUT wrote |
| `RelayBlobs.NewerPutReplaces` | services/blind-relay/src/server.ts:720-779 | an uninterrupted PUT of a newer revision replaces row and object and removes the superseded object |
| `RelayBlobs.StalePutChangesNothing` | services/blind-relay/src/server.ts:729-737 | an uninterrupted PUT of an older revision leaves both stores as they were |
| `RelayBlobs.ReusedRevisionLosesTheObject` | services/blind-relay/src/server.ts:729-737 | a PUT that reuses the stored revision leaves the row without its object |
| `RelayBlobs.SequentialPutIsSafeExactly` | services/blind-relay/src/server.ts:695-780 | a PUT that runs alone keeps exactly one object per row if and only if it does not reuse the stored revision |
| `RelayBlobs.StoredRevisionIsNewest` | services/blind-relay/src/server.ts:729-773 | after any list of PUTs run one after the other, the stored revision of a blob is the greatest one put |
| `RelayBlobs.PutRunIsSafeExactly` | services/blind-relay/src/server.ts:695-780 | all prefixes of a list of PUTs leave exactly one object per row if and only if no PUT repeats the greatest revision put so far |
| `RelayBlobs.CrashedPutsKeepRowsBacked` | services/blind-relay/src/server.ts:720-779 | PUTs cut off after any number of steps leave every row its object, as long as none reuses the stored revision |
| `RelayReads.GetFindsTheBlob` | services/blind-relay/src/server.ts:795-822 | a GET that starts while a row of the blob is stored never answers "not found", whatever runs beside it, and reads a row at least as new |
| `RelayReads.GetAloneServesTheBlob` | services/blind-relay/src/server.ts:795-822 | in every reachable state a GET that nothing interrupts serves the stored row and the bytes it describes, or there is no row |
| `RelayReads.GetChangesNothing` | services/blind-relay/src/server.ts:795-822 | a GET reads only, and ends after two steps |
| `RelayReads.RowsRecordTheirPut` | services/blind-relay/src/server.ts:695-778 | every stored row of every reachable state was written by a well-formed PUT that was sent, and records its kind, hash, length, version, revision, device, time and bytes |
| `RelayReads.GetAfterPut` | services/blind-relay/src/server.ts:695-822 | a well-formed PUT above the stored revision is accepted and a GET after it serves its bytes and what it said of them |
| `RelayReads.MalformedPutIsTurnedAway` | services/blind-relay/src/server.ts:695-719 | any other PUT is answered 400 and changes nothing; the limits are written out |
| `RelayReads.SweepAlone` | services/blind-relay/src/server.ts:1056-1071 | a sweep that nothing interrupts keeps exactly the rows that have not expired, and deletes exactly the objects of those it selected |
| `RelayRaces.RacesKeepObjectsExactly` | services/blind-relay/src/server.ts:720-779 | PUTs that overlap in any way keep the object of every row, at every moment of every schedule, if and only if no two carry the same revision of a blob |
| `RelayRaces.RacesLeaveNothingBehindExactly` | services/blind-relay/src/server.ts:720-779 | whenever none of them is under way every object has a row, for all schedules, if and only if PUTs of one blob carry one revision |
| `RelayRaces.RacesEndSoundExactly` | services/blind-relay/src/server.ts:720-779 | whenever none of them is under way there is exactly one object per row, for all schedules, if and only if the PUTs are for pairwise different blobs |
| `RelayDevices.DeviceRelay.Perform` | services/blind-relay/src/server.ts:230-693 | every event, carried out by the statements of its handler on the tables, is one step of the machine |
| `RelayDevices.DeviceRelay.Serve` | services/blind-relay/src/server.ts:230-693 | after any legal list of events no invite admitted two devices, every account has an active device and, with skew plus delay below the nonce lifetime, no request of an account that was not deleted was accepted again while its device was active |
| `RelayDevices.DeviceRelay.VerifyDeviceRequest` | services/blind-relay/src/server.ts:230-298 | the statements of a verification that nothing interrupts: its verdict, and the nonce row of an accepted request |
| `RelayDevices.VerifyIsARun` | services/blind-relay/src/server.ts:230-298 | a verification that nothing interrupts is its clock test, SELECT and INSERT, and has the verdict of the checks done at once |
| `RelayDevices.RevokeLeavesActive` | services/blind-relay/src/server.ts:670-677 | the guard of the UPDATE leaves another active device |
| `RelayDevices.SomeDeviceIsActive` | services/blind-relay/src/server.ts:523-553 | in every reachable state every existing account has an active device, under interleaved claims, revokes, sweeps and deletions |
| `RelayDevices.ApprovalChainsReachTheFounder` | services/blind-relay/src/server.ts:614-632 | following approved_by from any two devices of an account ends, in finitely many steps, at the same bootstrap device |
| `RelayDevices.InviteAdmitsOneDevice` | services/blind-relay/src/server.ts:585-650 | no invite ever admits a second device, however claims interleave |
| `RelayDevices.ReplayProtectionIsExact` | services/blind-relay/src/server.ts:230-298 | with requests interleaved also inside verifications, and deletions of the given accounts allowed, no (device, nonce, timestamp) of an account is accepted again while its device is active, if and only if skew plus the delay of a verification is below the nonce lifetime and the account is not among those deleted |
| `RelayDevices.RelayNeverReplays` | services/blind-relay/src/server.ts:33-34 | with the constants 300 and 600 an account that is not deleted has no such replay if and only if verifications take less than 300 seconds from clock test to INSERT |
| `RelayDevices.DeletionAllowsReplay` | services/blind-relay/src/server.ts:954-985 | if an account may be deleted and bootstrapped again, some run accepts a request of each of its devices twice, the signed deletion itself |
| `RelayDevices.RevokedDeviceIsOut` | services/blind-relay/src/server.ts:249-288 | a revoked device stays revoked, and of its requests only those are still accepted that wait between SELECT and INSERT and meet the delay, in every run that does not delete its account |
| `RelayDevices.RevocationIsFinalExactly` | services/blind-relay/src/server.ts:249-288 | after the cleanup no request of a revoked device is ever accepted if and only if none is waiting so |
| `RelayDevices.RevocationLetsACopyPass` | services/blind-relay/src/server.ts:249-288 | a copy of a request whose verification overlaps with the revocation of its device is accepted after the cleanup, for all windows and delays |
| `RelayRequests.AcceptedRequestsAreGenuine` | services/blind-relay/src/server.ts:230-298 | however requests interleave, an accepted one was signed, arrived within the skew of its timestamp, and its device was there and not revoked at a later moment |
| `RelayRequests.GenuineRequestPasses` | services/blind-relay/src/server.ts:230-298 | conversely a signed request of an active device, within the skew and with a new nonce, is accepted when nothing interrupts it; its nonce is stored and nothing else changes |
| `RelayRequests.DevicesAreAskedFor` | services/blind-relay/src/server.ts:555-693 | in every reachable state a revoked device was named by an accepted request of its account, and a device that is no founder came in by an invite its approver asked for |
| `RelayRequests.AdmissionsAreTimely` | services/blind-relay/src/server.ts:555-650 | every device that was let in claimed a token drawn for an accepted request of its own account less than 600 seconds earlier |
| `RelayRequests.OnlyDeletionRemoves` | services/blind-relay/src/server.ts:954-985 | no account and no device disappears unless an accepted request of the account asked for its deletion |
| `RelayRequests.InviteOpens` | services/blind-relay/src/server.ts:555-583 | an accepted invite request opens an invite of its account for 600 seconds |
| `RelayRequests.InviteStaysOpen` | services/blind-relay/src/server.ts:555-650 | an unused invite stays claimable until it expires, whatever else runs, unless the account is deleted |
| `RelayRequests.ClaimLetsIn` | services/blind-relay/src/server.ts:585-650 | a claim of an open invite that nothing interrupts lets the device in, approved by the creator, and uses the invite up |
| `RelayRequests.RevocationTakesEffect` | services/blind-relay/src/server.ts:665-693 | a revocation revokes its device when another is active, changes no other device, and deletes exactly the nonces of the revoked one |
| `RelayRequests.LastDeviceIsNotRevoked` | services/blind-relay/src/server.ts:665-677 | without another active device it changes nothing |
| `RelayRequests.DeletionTakesEffect` | services/blind-relay/src/server.ts:954-985 | a deletion leaves nothing of the account and everything of the others |
| `RelayRequests.SweepTakesEffect` | services/blind-relay/src/server.ts:1068-1075 | a sweep keeps exactly the nonces that live and the invites that can still be claimed |
| `RelayRequests.BootstrapFounds` | services/blind-relay/src/server.ts:523-553 | a bootstrap founds an account that does not exist with one active device, and changes nothing of any other |
| `Base64.DecodeInvertsEncodeLines` | packages/core-api/src/mime.ts:227-233 | decoding a wrapped encoding gives back every octet string |
| `Base64.EncodedLinesAreShort` | packages/core-api/src/mime.ts:227-233 | every line is at most 76 symbols of the alphabet of section 4 of RFC 4648 |
| `Base64.EverySpellingIsDecoded` | packages/core-api/src/mime.ts:64-70 | line ends and foreign characters may stand anywhere, either alphabet of RFC 4648 may be used, the padding may be missing, and what follows it is not read |
| `Base64.LoneSignIsDropped` | packages/core-api/src/mime.ts:64-70 | one symbol behind whole groups stands for nothing |
| `QuotedPrintable.DecodeBytes` | packages/core-api/src/mime.ts:72-85 | the loop computes the decoding |
| `QuotedPrintable.DecodeInvertsEveryEncoding` | packages/core-api/src/mime.ts:72-85 | the octets come back from every choice of literals, escapes and soft breaks of section 6.7 of RFC 2045 |
| `QuotedPrintable.EveryOctetStringHasALegalEncoding` | packages/core-api/src/mime.ts:72-85 | such an encoding with short lines exists for every octet string, and decodes to it |
| `QuotedPrintable.StrayEqualsIsKept` | packages/core-api/src/mime.ts:72-85 | an equals sign that starts neither an escape nor a soft break is kept, and decoding goes on behind it |
| `QuotedPrintable.RawCharacterIsKept` | packages/core-api/src/mime.ts:72-85 | a character that an encoder would have escaped stands for its low octet |
| `Utf8.DecodeInvertsEncode` | packages/core-api/src/mime.ts:33-34 | decoding an encoded text loses one leading byte order mark and nothing else |
| `Utf8.IllFormedIsReplaced` | packages/core-api/src/mime.ts:33-34 | each maximal ill-formed subpart, by table 3-7 of the Unicode Standard, becomes one replacement character, and decoding goes on behind it |
| `MimeHeaders.UnfoldHeaders` | packages/core-api/src/mime.ts:38-48 | the loop over unfolded lines builds the header map |
| `MimeHeaders.HeadersOfFields` | packages/core-api/src/mime.ts:38-48 | a printed header block is read back as its fields, later ones winning |
| `MimeHeaders.PlainParameter` | packages/core-api/src/mime.ts:50-62 | a parameter without quote marks and percent signs is read back unchanged |
| `MimeHeaders.EncodedWordDecodes` | packages/core-api/src/mime.ts:134-145 | an encoded word decodes to the text it was made from |
| `MimeForms.BlockIsRead` | packages/core-api/src/mime.ts:38-48 | a header block is read as what it says however it is folded, with either line end, and with stray lines that are no field |
| `MimeForms.SentLeafIsRead` | packages/core-api/src/mime.ts:93-132 | in every spelling, headers and body of a part that is no multipart are told apart at the first empty line |
| `MimeForms.BareBlockIsRead` | packages/core-api/src/mime.ts:96-99 | without an empty line all is header and the body is empty |
| `MimeForms.SentMultipartIsRead` | packages/core-api/src/mime.ts:109-117 | a multipart in any spelling parses to the parts of its visible contents in order; preamble, blank sections, and all behind the closing marker are passed over |
| `MimeForms.SpellingsAgree` | packages/core-api/src/mime.ts:168-209 | two spellings of one header block and body are one message |
| `MimeParameters.ParameterIsRead` | packages/core-api/src/mime.ts:50-62 | the first parameter of a name is found behind any type, in any case, quoted or bare, starred or not, and no other is |
| `MimeParameters.EscapedTextIsRead` | packages/core-api/src/mime.ts:57-61 | percent-escaped text is decoded, whichever characters are escaped and in whichever case |
| `MimeParameters.ExtendedTextIsRead` | packages/core-api/src/mime.ts:56-58 | an extended text, section 4 of RFC 5987, loses its character set and language and is decoded |
| `MimeParameters.BadEscapeIsKept` | packages/core-api/src/mime.ts:57-61 | a text with a percent sign that escapes nothing is returned as it is |
| `MimeWords.PiecesAreShown` | packages/core-api/src/mime.ts:134-145 | any mixture of plain text and encoded words, in B or Q encoding (section 4 of RFC 2047), is shown piece by piece |
| `MimeParser.ReadPart` | packages/core-api/src/mime.ts:93-132 | the recursive parser with its shared counter computes the specified tree, count and error |
| `MimeParser.ReadSections` | packages/core-api/src/mime.ts:109-117 | the loop over the sections of a multipart body |
| `MimeParser.Collector.Visit` | packages/core-api/src/mime.ts:177-195 | the visiting closure collects attachments in order, and the first text and html |
| `MimeParser.ParseMime` | packages/core-api/src/mime.ts:168-209 | the whole parser, with its size and part limits |
| `MimeMultipart.ParseMultipart` | packages/core-api/src/mime.ts:109-117 | a multipart body parses to exactly the parts of its contents, in order (section 5.1.1 of RFC 2046) |
| `MimeContents.ContentsAreTold` | packages/core-api/src/mime.ts:174-196 | for every tree of parts the text and the html are the first leaf of their type that is no attachment, and the attachments are the leaves that are, in order, with their name, type, disposition, id and bytes |
| `MimeContents.PartsAreCounted` | packages/core-api/src/mime.ts:93-132 | the parser counts exactly the parts of the tree it makes, makes no more than 1000, and gives bodies to leaves alone |
| `MimeBodies.QuotedPrintableIsDecoded` | packages/core-api/src/mime.ts:87-91 | for every octet string and every encoding of it, a message sent as quoted-printable has the octets as its body, or is too large |
| `MimeBodies.EveryOctetStringCanBeSent` | packages/core-api/src/mime.ts:87-91 | each octet string has such a message |
| `MimeBodies.Base64IsDecoded` | packages/core-api/src/mime.ts:87-91 | the same for base64 |
| `MimeBodies.PlainBodyIsKept` | packages/core-api/src/mime.ts:87-91 | with neither encoding the body is the UTF-8 encoding of the text |
| `MimeBodies.BodyIsShown` | packages/core-api/src/mime.ts:174-196 | a body without disposition and name is shown as text, as html, or not at all, by its type |
| `MimeBodies.UntypedBodyIsText` | packages/core-api/src/mime.ts:100-209 | a message that says nothing about its content is shown as text |
| `MimeBodies.EncodedTextIsShown` | packages/core-api/src/mime.ts:87-209 | every text sent as quoted-printable is shown as it was, but for a leading byte order mark |
| `MimeBodies.AttachedBodyIsAnAttachment` | packages/core-api/src/mime.ts:174-196 | a body that its disposition calls an attachment is one, under its name or "attachment" |
| `MimeBodies.NamedBodyIsAnAttachment` | packages/core-api/src/mime.ts:122-124 | without a disposition a name in the content type makes the body an attachment of that name |
| `MimeAddresses.PrintedListIsRead` | packages/core-api/src/mime.ts:151-166 | every list of bare, named and quoted addresses is read back in order; names in quotation marks may hold commas and angle brackets |
| `MimeAddresses.TrimmedListIsRead` | packages/core-api/src/mime.ts:151-203 | the same of the value as the header map holds it |
| `MimeAddresses.CommaInNameSplits` | packages/core-api/src/mime.ts:151-166 | an unquoted name with a comma is split there: the text before it becomes an address of its own |
| `MimeRoundTrip.MessageIsPrinted` | packages/core-api/src/mime.ts:278-301 | a generated message is its header block and a multipart body of its contents |
| `MimeRoundTrip.NamedTypeIsRead` | packages/core-api/src/mime.ts:100-101 | an attachment's type is read back without its parameters |
| `MimeRoundTrip.ParsingInvertsGeneration` | packages/core-api/src/mime.ts:168-302 | parsing a generated message succeeds exactly within the limits and gives back text, html, every attachment in order, and the subject |
| `MimeRoundTrip.SubjectComesBack` | packages/core-api/src/mime.ts:211-219 | what header encoding and decoding leave of a subject |
| `MimeRoundTrip.PlainFilenameComesBack` | packages/core-api/src/mime.ts:235-245 | filenames without quote marks, percent signs and line ends are returned as they are |
| `MimeMessages.MessageIsReadExactly` | packages/core-api/src/mime.ts:168-173 | a generated message is accepted exactly up to 52428800 bytes and 996 attachments |
| `MimeMessages.BodiesComeBack` | packages/core-api/src/mime.ts:278-301 | the reader is shown both bodies, with a signature behind an empty line or two breaks |
| `MimeMessages.AttachmentsComeBack` | packages/core-api/src/mime.ts:235-245 | every attachment comes back in its place with its bytes, id, type, disposition and safe name |
| `MimeMessages.HeadersComeBack` | packages/core-api/src/mime.ts:250-277 | the header map is exactly date, id, sender, recipients, subject, thread and type of the draft, and a receipt request where one is wanted |
| `MimeMessages.AddressesComeBack` | packages/core-api/src/mime.ts:151-266 | sender and recipients of all three lists come back in order, names encoded or plain |
| `MimeMessages.ReferencesAreSeparated` | packages/core-api/src/mime.ts:269-271 | the references are the ids in angle brackets, in order, between single spaces |
| `MimeMessages.LineEndsAreDropped` | packages/core-api/src/mime.ts:221-225 | the line ends of an email are dropped and nothing else |
| `Outbox.SyncEngine.Enqueue` | packages/core-api/src/memory-sync.ts:138-226 | queueing cancels superseded autosaves, coalesces into an open row, or appends a row |
| `Outbox.SyncEngine.FlushOne` | packages/core-api/src/memory-sync.ts:233-293 | one turn of the flush loop |
| `Outbox.SyncEngine.FlushOutbox` | packages/core-api/src/memory-sync.ts:228-296 | a flush that nothing interrupts: flushed plus failed is the number of due rows, each handed over once, in order |
| `Outbox.FlushIsARun` | packages/core-api/src/memory-sync.ts:228-296 | such a flush is the run of the machine that takes and settles each row in turn |
| `Outbox.SyncEngine.CancelOutbox` | packages/core-api/src/memory-sync.ts:309-315 | only a pending row is cancelled |
| `Outbox.SyncEngine.RetryOutbox` | packages/core-api/src/memory-sync.ts:317-324 | only a failed row becomes pending again |
| `Outbox.CallsEqualAttempts` | packages/core-api/src/memory-sync.ts:240-243 | in every run, with operations between the hand-over of a row and the reply to it, the provider calls for a row equal its attempts, and none comes before its availableAt |
| `Outbox.FinalRowsStayFinal` | packages/core-api/src/memory-sync.ts:234-240 | a done or cancelled row never changes and is never handed over again |
| `Outbox.UndoneRowIsNeverSent` | packages/core-api/src/memory-sync.ts:309-315 | a row cancelled before its availableAt never reaches a provider |
| `Outbox.AutosaveReplacesContents` | packages/core-api/src/memory-sync.ts:192-215 | the latest autosave wins, in the open row of its draft or a new one; a failed row stays failed and all other rows stay as they were |
| `Outbox.FailedRowWaitsForRetry` | packages/core-api/src/memory-sync.ts:200-206 | a failed row is not handed over again until it is retried, however often it is autosaved |
| `Outbox.EnqueueSaveKeepsSettled` | packages/core-api/src/memory-sync.ts:155-215 | an autosave keeps at most one open row per draft, and that row knows every id known for the draft, unless the first save of the draft is in flight |
| `Outbox.OneProviderDraft` | packages/core-api/src/memory-sync.ts:155-266 | however often a draft is autosaved, fails, is retried, cancelled or sent, also while the flush awaits a provider, its saves go to one provider draft, created once |
| `Outbox.AutosaveIsSafeExactly` | packages/core-api/src/memory-sync.ts:155-266 | in every reachable state an autosave keeps that guarantee for every continuation if and only if the first save of the same draft is not in flight |
| `OutboxReplies.StatusFollowsTheReply` | packages/core-api/src/memory-sync.ts:228-296 | in every reachable state a row is done exactly when its last call succeeded, in flight exactly when that is unanswered, and failed only with the message of an error |
| `OutboxReplies.ReplyDecidesTheRow` | packages/core-api/src/memory-sync.ts:244-291 | the reply to the call under way makes its row done, remembering the id of a save, or failed with contents and message kept; no other row changes |
| `OutboxReplies.PendingRowIsHandedOver` | packages/core-api/src/memory-sync.ts:228-243 | a pending row of the account that is due is handed over once, with what it holds |
| `OutboxReplies.OtherRowsArePassedOver` | packages/core-api/src/memory-sync.ts:233-240 | rows that are final, failed, of another account or not due are passed over |
| `OutboxReplies.FailedCallCanBeRetried` | packages/core-api/src/memory-sync.ts:283-324 | after an error the retry is accepted and the next flush hands over the same contents once more |
| `OutboxReplies.CancelIsExact` | packages/core-api/src/memory-sync.ts:309-315 | undo cancels the first row of the id exactly when it is pending, and changes no other |
| `OutboxReplies.RetryIsExact` | packages/core-api/src/memory-sync.ts:317-324 | retry makes the first row of the id pending exactly when it has failed, and changes no other |
| `OutboxReplies.UnknownIdIsRefused` | packages/core-api/src/memory-sync.ts:309-324 | an id that no row has is refused |
| `OutboxReplies.SendSupersedesAutosaves` | packages/core-api/src/memory-sync.ts:138-154 | queueing a send cancels every unsent autosave of its draft, keeps all other rows, and appends the send |
| `OutboxReplies.OtherMutationsAreAppended` | packages/core-api/src/memory-sync.ts:216-226 | any other mutation is appended and nothing else changes |
| `OutboxReplies.FlushHandsOverEachRow` | packages/core-api/src/memory-sync.ts:228-296 | an uninterrupted flush hands over each pending row it comes to once, and ends it as its reply says |
| `OutboxReplies.FlushLeavesOtherRows` | packages/core-api/src/memory-sync.ts:228-296 | it leaves every other row as it was |
| `StdioFraming.ConsumeBuffer` | packages/mcp/src/protocol.ts:142-170 | the loop computes the specified messages and rest, losing at least four bytes a turn |
| `StdioFraming.ConsumeInTwoSteps` | packages/mcp/src/protocol.ts:142-170 | consuming a and then its rest with b is consuming a and b at once, for all byte strings |
| `StdioFraming.StdioServer.Receive` | packages/mcp/src/protocol.ts:183-196 | one read keeps the buffer and the handled messages those of the whole stream so far |
| `StdioFraming.StdioServer.Run` | packages/mcp/src/protocol.ts:172-197 | any cut of a stream into chunks handles the same messages |
| `StdioFraming.HeaderDeclaresLength` | packages/mcp/src/protocol.ts:132-153 | the printed header declares exactly the length of the body |
| `StdioFraming.ConsumeInvertsFrames` | packages/mcp/src/protocol.ts:132-170 | consuming encoded messages yields exactly those messages and no rest |
| `StdioFraming.TruncatedStreamDeliversPrefix` | packages/mcp/src/protocol.ts:142-170 | a stream cut anywhere has delivered a prefix, and the rest delivers exactly the others |
| `StdioFraming.DeclaredLengthIsLeftmost` | packages/mcp/src/protocol.ts:149-155 | the leftmost field of a header declares its length |
| `StdioFraming.NoLengthIsDeclared` | packages/mcp/src/protocol.ts:149-153 | a header without such a field declares none |
| `StdioFraming.LengthInOtherText` | packages/mcp/src/protocol.ts:149-155 | the field is found in any case, after any white space, up to the first character that is no digit |
| `StdioFraming.HeaderWithoutLengthIsSkipped` | packages/mcp/src/protocol.ts:150-153 | such a header is dropped with its empty line and reading goes on behind it |
| `StdioFraming.IncompleteFrameWaits` | packages/mcp/src/protocol.ts:155-158 | a frame that is not all there is left in the buffer untouched |
| `StdioFraming.HandlerGetsTheOthers` | packages/mcp/src/protocol.ts:186-195 | the handler gets every message in order but the notification that initialization is over |
| `KeyBootstrap.Device.Open` | apps/web/src-tauri/src/secure_storage.rs:30-78 | opening or creating, with every step completed, failed or interrupted |
| `KeyBootstrap.Device.WritePrivateAtomic` | apps/web/src-tauri/src/secure_storage.rs:80-98 | the wrapped key is installed whole or not at all |
| `KeyBootstrap.Device.ResetLocalDatabase` | apps/web/src-tauri/src/release_support.rs:158-178 | the reset loop, which passes over missing files and stops at a failure |
| `KeyBootstrap.RunsKeepSound` | apps/web/src-tauri/src/secure_storage.rs:30-78 | after any run an existing database file has exactly the key the wrapped-key file holds |
| `KeyBootstrap.KeyIsNeverRegenerated` | apps/web/src-tauri/src/secure_storage.rs:53-75 | a wrapped key is only ever written when no data file exists |
| `KeyBootstrap.OpenSucceeds` | apps/web/src-tauri/src/secure_storage.rs:39-77 | with a working key store an open succeeds, under the key of existing data |
| `KeyBootstrap.DeviceIsNeverLocked` | apps/web/src-tauri/src/secure_storage.rs:30-78 | after any run of opens and resets cut off anywhere, the next undisturbed open succeeds under the right key |
| `KeyBootstrap.ResetThenOpenStartsAnew` | apps/web/src-tauri/src/release_support.rs:158-178 | a complete reset leaves no data and no key, and the next open creates both |
| `KeyBootstrap.SafeOrdersExactly` | apps/web/src-tauri/src/release_support.rs:9-14 | of all removal orders exactly those with the wrapped key last survive crashes |
| `KeyBootstrap.RefusedOpenChangesNothing` | apps/web/src-tauri/src/secure_storage.rs:30-78 | on any disk an open that cannot get at the right key says why and changes nothing, and any other ends under the right key or is interrupted |
| `KeyBootstrap.DeviceKeyStays` | apps/web/src-tauri/src/secure_storage.rs:57-67 | a stored device key is used and never replaced, by opens and resets |
| `KeyBootstrap.InstallationIsAtomic` | apps/web/src-tauri/src/secure_storage.rs:80-98 | wherever an installation stops the wrapped key is the old one or the whole new one, and no file but the temporary one differs otherwise |
| `Envelope.EncodeAssociatedData` | crates/galmail-core/src/crypto.rs:24-40 | the buffer built field by field is the encoding |
| `Envelope.EncodeIsInjective` | crates/galmail-core/src/crypto.rs:24-40 | distinct triples of fields shorter than 2^64 bytes have distinct associated data |
| `Envelope.AssociatedDataLayout` | crates/galmail-core/src/crypto.rs:24-40 | the layout of associated data, byte for byte, for fields shorter than 256 bytes |
| `Envelope.Seal` | crates/galmail-core/src/crypto.rs:42-73 | the envelope is header, nonce and ciphertext |
| `Envelope.OpenInvertsSeal` | crates/galmail-core/src/crypto.rs:75-102 | open gives back every sealed plaintext |
| `Envelope.OpenIsBound` | crates/galmail-core/src/crypto.rs:75-102 | an envelope opens under exactly its own key and associated data |
| `Envelope.EnvelopeBelongsToOneRecord` | crates/galmail-core/src/crypto.rs:24-102 | an envelope sealed for one record never opens for another |
| `Envelope.SealedLayout` | crates/galmail-core/src/crypto.rs:62-70 | the layout of an envelope, byte for byte |
| `Envelope.AlteredHeaderIsRefused` | crates/galmail-core/src/crypto.rs:73-89 | whichever byte of the header is altered, the envelope is refused with the matching error |
| `Envelope.ShortEnvelopeIsRefused` | crates/galmail-core/src/crypto.rs:78-80 | an envelope is called truncated exactly when it is shorter than header, nonce and tag |
| `Envelope.SomeAeadExists` | crates/galmail-core/src/crypto.rs:42-102 | the two laws assumed of the cipher can be met |
| `RecordStore.EncryptedDatabase.PutRecord` | crates/galmail-core/src/database.rs:81-111 | put refines the update of a plain map |
| `RecordStore.EncryptedDatabase.GetRecord` | crates/galmail-core/src/database.rs:113-143 | get refines its lookup |
| `RecordStore.EncryptedDatabase.DeleteRecord` | crates/galmail-core/src/database.rs:145-164 | delete refines removal and reports whether the record existed |
| `RecordStore.EncryptedDatabase.ListRecords` | crates/galmail-core/src/database.rs:166-200 | list opens every record of the kind, in the order of the ids |
| `RecordStore.EncryptedDatabase.ApplySyncBatch` | crates/galmail-core/src/database.rs:203-285 | a batch is all of its upserts, deletes and the cursor, or an error and no change |
| `RecordStore.EncryptedDatabase.RemoveAccount` | crates/galmail-core/src/database.rs:288-313 | the account's records are removed and counted |
| `RecordStore.EncryptedDatabase.Run` | crates/galmail-core/src/database.rs:81-324 | every sequence of operations, failures included, is answered as a plain map answers it |
| `RecordStore.BatchMeaning` | crates/galmail-core/src/database.rs:240-284 | after a batch the cursor survives, deleted records are gone, upserted ones have their last payload, others are unchanged |
| `RecordStore.ErrorsChangeNothing` | crates/galmail-core/src/database.rs:81-324 | an operation that is answered with an error has changed nothing |
| `RecordStore.BatchSucceedsExactly` | crates/galmail-core/src/database.rs:203-285 | a batch is committed exactly when its names are valid, every nonce can be drawn and every statement up to COMMIT succeeds; the error says what was wrong |
| `RecordStore.ReadsFollowPuts` | crates/galmail-core/src/database.rs:81-143 | once a record is put, reads of it find the value, reads of others find what they found before, and the count grows by one if it was new |
| `RecordStore.ReadsFollowDeletes` | crates/galmail-core/src/database.rs:113-164 | once a record is deleted, reads of it find nothing, reads of others find what they found before, and the count falls by one if it was there |
| `RecordStore.WritesSucceedExactly` | crates/galmail-core/src/database.rs:81-164 | puts and deletes are answered when names, nonce and statement allow it, and with which error otherwise |
| `RecordStore.ReadsSucceedExactly` | crates/galmail-core/src/database.rs:113-143 | a read under valid names answers with what is there |
| `RecordStore.ListingSucceedsExactly` | crates/galmail-core/src/database.rs:166-200 | a listing is answered under a valid account and kind when its statement succeeds |
| `RecordStore.DeletionSucceedsExactly` | crates/galmail-core/src/database.rs:288-313 | an account is deleted when BEGIN, three deletes and COMMIT succeed, and the answer counts its records |
| `RecordStore.DeleteAccountIsExact` | crates/galmail-core/src/database.rs:288-313 | the reported number is the number of records removed, and no other account is touched |
| `RecordStore.ListingIsSortedAndComplete` | crates/galmail-core/src/database.rs:166-200 | a listing is strictly ascending by bytes and holds exactly the records of the kind |
| `RecordStore.MovedEnvelopeIsRejected` | crates/galmail-core/src/database.rs:113-143 | an envelope moved to the row of another record is rejected |
| `Revocation.Processor.DeleteConsent` | services/opt-in-processor/src/server.ts:480-563 | withdrawing consent queues a revocation and a receipt, or completes at once |
| `Revocation.WithdrawIsARun` | services/opt-in-processor/src/server.ts:480-554 | an uninterrupted withdrawal is its SELECT and its batch |
| `Revocation.Processor.ConsumeRevocations` | services/opt-in-processor/src/server.ts:570-632 | the queue loop, message by message |
| `Revocation.Processor.EnforceRetention` | services/opt-in-processor/src/server.ts:634-661 | the sweep expires overdue revocations, marks their receipts and drops old receipts |
| `Revocation.ConsumeIsARun` | services/opt-in-processor/src/server.ts:576-622 | an uninterrupted delivery is the delivery event and the four steps of its own task: the same tables and the same acknowledgement |
| `Revocation.RevocationsAgreeWithReceipts` | services/opt-in-processor/src/server.ts:503-661 | in every interleaving revocation and receipt agree, the token is blank exactly when not queued, and completion means the provider accepted |
| `Revocation.NothingIsQueuedAgain` | services/opt-in-processor/src/server.ts:600-646 | no revocation returns to queued, and a complete one stays complete |
| `Revocation.SweepErasesOverdueTokens` | services/opt-in-processor/src/server.ts:640-645 | the first sweep after its deadline erases a token for good, whatever deliveries race with it |
| `Revocation.ErasedConsentsAreRevoked` | services/opt-in-processor/src/server.ts:480-554 | every consent a withdrawal deletes has a revocation row of that withdrawal, queued with the deleted token, if no consent is granted while a withdrawal of its account is between SELECT and batch |
| `Revocation.ConsentIsSafeExactly` | services/opt-in-processor/src/server.ts:480-554 | in every reachable state granting a consent keeps that for every continuation if and only if no withdrawal of the account waits with another reading |
| `RevocationOutcomes.WithdrawalIsExact` | services/opt-in-processor/src/server.ts:480-554 | a withdrawal erases the consent of its account alone, queues its token until the end of the retention time with a pending receipt, or completes at once; receipts last 30 days |
| `RevocationOutcomes.DueDeliveryIsExact` | services/opt-in-processor/src/server.ts:576-622 | a due revocation is completed and erased when the provider accepts, counted and delivered again when it refuses, and delivered again uncounted when it cannot be reached |
| `RevocationOutcomes.IdleDeliveryIsAcknowledged` | services/opt-in-processor/src/server.ts:576-597 | a delivery that finds nothing queued, or finds it overdue, is acknowledged and changes nothing |
| `RevocationOutcomes.SweepIsExact` | services/opt-in-processor/src/server.ts:634-661 | a sweep expires exactly the overdue revocations and drops exactly the receipts past their time |
| `RevocationOutcomes.ProviderGetsTheQueuedToken` | services/opt-in-processor/src/server.ts:480-622 | in every interleaving the provider is asked to revoke only the token that the withdrawal of that operation queued |
| `Decimal.NumericOrderIsShortLex` | packages/core-api/src/cursor.ts:25-33 | on canonical decimals numeric order is length-then-lexicographic order |
| `Cursor.CompareIsShortLex` | packages/core-api/src/cursor.ts:25-33 | on history ids and non-numeric tokens both branches are one total order |
| `Cursor.HistoryIdsFitExactly` | packages/core-api/src/cursor.ts:25-33 | a token that reads as a whole number below 2^53 ties only with itself among history ids if and only if it is a history id; any other spelling ties with the history id of its number |
| `Cursor.DeliveriesCommuteExactly` | packages/core-api/src/cursor.ts:7-33 | two cursors end at the same token in both orders of delivery if and only if their tokens are equal or do not read as the same number |
| `Cursor.OnlyHistoryIdsCommute` | packages/core-api/src/cursor.ts:7-33 | a cursor whose token reads as such a number commutes with every history id if and only if its token is one; otherwise the two orders end at different tokens |
| `Cursor.ReconcileIsIdempotent` | packages/core-api/src/cursor.ts:7-23 | delivering a cursor twice changes nothing |
| `Cursor.ReconcileIsAJoin` | packages/core-api/src/cursor.ts:7-23 | reconciliation is associative, and commutative in the token |
| `Cursor.DeliverKeepsMaximum` | packages/core-api/src/cursor.ts:7-23 | any run of deliveries ends at the greatest token seen |
| `Cursor.DeliveryOrderIsIrrelevant` | packages/core-api/src/cursor.ts:7-23 | reordered or duplicated deliveries end at the same token |
| `Cursor.MismatchIsReported` | packages/core-api/src/cursor.ts:12-17 | a cursor of another account or provider stops with the matching error |
| `Cursor.FirstCursorIsTaken` | packages/core-api/src/cursor.ts:7-11 | the first cursor is taken as it is |
| `Cursor.BlankTokensAreNoNumbers` | packages/core-api/src/cursor.ts:25-33 | blank tokens are never compared as numbers |
| `Cursor.OtherNumeralsCycle` | packages/core-api/src/cursor.ts:25-33 | with a numeral and tokens that are none, comparison can go round in a circle |
| `UnifiedInbox.SortIsStable` | packages/providers/src/unified.ts:26-29 | threads of one instant keep the order of their accounts |
| `UnifiedInbox.MergedInboxIsGloballyNewest` | packages/providers/src/unified.ts:16-30 | for any comparison of timestamps that is a total preorder, the merged list is sorted and full, and no thread left out anywhere, fetched or not, is newer than one shown |
| `ApprovalGate.InMemoryApprovalGate.RequestApproval` | packages/mcp/src/approval.ts:66-100 | a new request is pending with its expiry |
| `ApprovalGate.InMemoryApprovalGate.Decide` | packages/mcp/src/approval.ts:102-120 | only an unexpired pending request is decided, and its waiters are told |
| `ApprovalGate.InMemoryApprovalGate.ListPending` | packages/mcp/src/approval.ts:122-135 | listing expires overdue requests and returns the pending ones in order |
| `ApprovalGate.InMemoryApprovalGate.WaitForDecision` | packages/mcp/src/approval.ts:137-157 | a promise is settled at once or queued |
| `ApprovalGate.InMemoryApprovalGate.Timeout` | packages/mcp/src/approval.ts:159-167 | a timer rejects its promise and expires a request still pending |
| `ApprovalGate.DecidedRequestsAreFinal` | packages/mcp/src/approval.ts:66-168 | under any interleaving a request never changes once it has left pending, and waiters hear only its final status |
| `ApprovalGate.DecidedRequestsLeaveNoWaiter` | packages/mcp/src/approval.ts:109-117 | once a request is decided, every promise that waited for it is settled with that decision |
| `ApprovalGate.RequestIsPending` | packages/mcp/src/approval.ts:66-100 | a new request is pending, with what was asked and its expiry, behind the earlier ones |
| `ApprovalGate.ListingIsExact` | packages/mcp/src/approval.ts:122-135 | a listing returns exactly the pending requests that have not expired, in the order they were made, and expires exactly the overdue ones |
| `ApprovalGate.ListenersList` | packages/mcp/src/approval.ts:62-64 | a listener lists the pending requests when it is told and does nothing else |
| `ApprovalGate.DecisionIsExact` | packages/mcp/src/approval.ts:102-120 | a decision settles its request and exactly the promises that wait for it; past the expiry it only expires the request |
| `ApprovalGate.WaitIsExact` | packages/mcp/src/approval.ts:137-157 | a wait is rejected, settled or queued by the state of its request |
| `ApprovalGate.TimeoutIsExact` | packages/mcp/src/approval.ts:159-167 | a timer rejects its own promise alone, and expires a request that is still pending |
| `ToolAuthorization.CheckClient` | packages/mcp/src/tools.ts:61-72 | the checks of authorize, with the loop over the accounts |
| `ToolAuthorization.HostCallsAreApproved` | packages/mcp/src/tools.ts:55-91 | a call reaches the host with an approved, unexpired request of its own exactly when it needs approval |
| `ToolAuthorization.EverySendIsApproved` | packages/mcp/src/tools.ts:210-225 | every send maps to its own approved request for the same client and account, exactly when autoApprove is off |
| `ToolOutcomes.HostCallsAreAuthorized` | packages/mcp/src/tools.ts:55-91 | under any interleaving a call that reached the host did what it was called for, for a client that is known, not revoked, has the scope of the tool and may use every account, and has an approval exactly when tool and mode ask for one |
| `ToolOutcomes.UnaskedCallReachesTheHost` | packages/mcp/src/tools.ts:55-91 | an authorized call that nobody is asked about reaches the host |
| `ToolOutcomes.AskedCallWaits` | packages/mcp/src/tools.ts:73-91 | an authorized call that is asked about waits for a pending request of its own that expires after five minutes |
| `ToolOutcomes.SettlementDecidesTheCall` | packages/mcp/src/tools.ts:73-91 | only an approval lets a waiting call through; a denial or a timeout turns it away |
| `ToolOutcomes.RefusalsAreExact` | packages/mcp/src/tools.ts:55-72 | a call that may not be made changes nothing and is told why |

## Left out

- `RelayBlobs.BlobRelay.PutBlob` starts after the verification of the device, which `RelayDevices` models.
- `RelayBlobs.RevisionsNeverDecrease` covers PUTs with distinct revisions per blob and no DELETE of blobs or accounts.
- `RelayRaces.RacesLeaveNothingBehindExactly` is about PUTs that end; a PUT cut off after its upload leaves its object behind.
- `RelayDevices.DeviceRelay.Perform` leaves out header formats, the account token and the last-seen time; a signature is valid or not.
- `RelayDevices.ReplayProtectionIsExact` is about runs in which no verification takes longer than the given delay.
- `RelayDevices.RevokeLeavesActive` leaves out the push routes that a revocation also disables.
- `Outbox.OneProviderDraft` assumes callers that pass a draft without a provider id, failed saves that create nothing, a provider that returns the id it is given, flushes that do not overlap (a flush does not skip rows in flight), and no autosave during the first save of its draft, which `AutosaveIsSafeExactly` shows to be necessary.
- `Outbox.SyncEngine.FlushOutbox` is the flush that nothing interrupts; operations while it waits, and the rows they append, are events of the machine.
- `Outbox.SyncEngine.Enqueue` returns a value; that the returned row is the stored object, and later changes show through it, is not modelled. Errors thrown while choosing a provider count as failed calls.
- `MimeParser.ParseMime` takes text; reading it from bytes is `Utf8`.
- `MimeRoundTrip.ParsingInvertsGeneration` assumes that the random markers do not occur in the contents and that fields printed raw hold no line end.
- Strings are sequences of Unicode scalar values, so lone surrogates are left out; case folding is ASCII only.
- `Base64.EverySpellingIsDecoded` is the decoder of Node's `Buffer`; the `atob` of a platform without it is stricter.
- `MimeMessages.AddressesComeBack` assumes emails without list punctuation and plain names without commas, quote marks and angle brackets, which the generator does not quote (`MimeAddresses.CommaInNameSplits`).
- `Cursor.CompareIsShortLex` takes `Number` as a function that reads canonical decimals below 2^53 exactly; the grammar of other numerals is not modelled.
- `StdioFraming.ConsumeBuffer` takes JSON parsing and printing as functions, and frame lengths are unbounded integers.
- `Envelope.OpenInvertsSeal` and its companions assume the two laws of the cipher; XChaCha20-Poly1305 itself, key derivation and SQLCipher are not modelled.
- `KeyBootstrap.Device.Open` leaves out the length checks on the wrapped-key file and the unwrapped key, which no modelled run can fail.
- `KeyBootstrap.RunsKeepSound` treats the key store as atomic and never losing a key; file permissions are left out.
- `RecordStore.EncryptedDatabase.Run` leaves out the search index, the sync-commit table and schema migrations.
- `Revocation.Processor.DeleteConsent` is the withdrawal that nothing interrupts; its re-encryption of the token and its queue send are left out.
- `Revocation.ErasedConsentsAreRevoked` excludes consents granted during a withdrawal, which `ConsentIsSafeExactly` shows to be necessary.
- `Revocation.RevocationsAgreeWithReceipts` treats the re-encrypted token as the token; retained inputs and audit rows are left out.
- `RelayBlobs.SweepFindsNothing` leaves out the batch size of 1000 rows: a sweep selects any subset of the expired rows.
- `ToolAuthorization.HostCallsAreApproved` leaves out hosts that lack a tool, query rewriting and the results of host calls.
- User interface, OAuth, push delivery, provider HTTP clients, sanitizing, search, classification and release scripts.
