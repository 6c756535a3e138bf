# Verified models of repartee

This project models the parts of repartee whose correctness rests on more than one function, and proves
what their code and documentation promise. The theorems are for-all statements: over every input, every run,
every delivery order or every cryptographic suite with the stated laws. Where the code falls short of a property, its
exact condition is proved, and a further lemma shows an input or a run at which it fails.

* **RPE2E, the end-to-end encryption of `scripts/weechat/rpe2e.py`.** `Utf8`, `Text`, `Numerals` and `Base64` are
  the encodings; `Payloads`, `Handshake` and `Wire` the signed payloads, the handshake notices and the encrypted
  lines; `Chunker` the splitter; `Limiter` the rate limiter; `Sas` the comparison words. `CryptoSuite` is the
  cryptographic library as a record of functions with laws. `Keyring` has every handler as a step on the tables of
  the keyring, `KeyringStore` the same tables as mutable fields with the handlers as methods, each proved to take
  exactly that step. `Pinning`, `Sessions`, `Wrapping`, `Rotation`, `Addressing`, `Spacing` and `Provenance` are the
  theorems over runs of one client, `Commands` what its user sets; `Answering` says over the tables which message is
  sent when, `Formats` which text is a message, and `Manual` follows `/e2e handshake` and `/e2e accept` to their end.
  `Delivery` follows a typed line to the screen of the receiver; `Convergence` has two clients and a network that
  reorders messages, `Retry` what becomes of them when a request is made again, and `EndToEnd` joins delivery and
  convergence.
* **`WhoQueue` and `WhoReplies`**: the WHO/MODE batch scheduler of `src/app/who.rs`, the connection events that drive
  it, and what each reply settles.
* **`LogPager` and `LogRows`**: the log browser's paging and day separators, `src/app/log_browser.rs`, and what it
  shows row by row.
* **`Shrink` and `ShrinkCache`**: link substitution, resolution and the cache, `src/app/shrink.rs`,
  `src/shrink/mod.rs`.
* **`EnvFile`, `EnvText` and `Credentials`**: the `.env` editor, what the text of the file says, and the credentials
  kept in it, `src/config/env.rs` and `src/commands/handlers_admin.rs`.
* **`StripFormat` and `StripPieces`**: the mIRC stripper, `gui/src/format.rs`.

Run `dafny verify dfyconfig.toml` to check everything.

## Assumptions

* Every `with db_conn()` block counts as committed. As written, `db_conn` (scripts/weechat/rpe2e.py:397-404) closes
  the connection without a commit; committing is what every caller relies on.
* A handler reads the clock once, and one clock value serves both its second-precision and its fractional
  uses. Clock readings, random bytes and the nick of a sender are parameters. Where a theorem needs fresh keys to be
  fresh or of 32 bytes it says so; where one needs the clock it needs a reading that does not run back, or is 30 s or
  more past its origin, as every date since 1970 is.
* Cryptography has exactly the laws of `CryptoSuite.Suite.Lawful`: signatures verify, both halves of a Diffie-Hellman
  exchange agree, opening undoes sealing and succeeds on nothing else, sizes are those of the primitives. That an
  Ed25519 key converts to an X25519 key is taken to succeed always. The laws do not contradict each other
  (`CryptoSuite.LawsCanHold`).
* A handler that raises an exception midway keeps the table writes made before it, as the code does: a KEYRSP whose
  ephemeral key is a low-order point consumes the request.
* Text is made of Unicode scalar values, so it always has an encoding; SQLite, TOML and the file system
  store what they are given, and a write either happens or fails.
* The log changes only at its end while it is paged through, its rows have distinct ids, and a timestamp lies on the
  same local day each time it is rendered. Timestamps are within the range of the calendar library.
* The IRC library prints a command's parameters with single blanks between them and no colon before the last.

## What the models show about the code

* A KEYRSP or REKEY payload fixes its fields only because the wrapped key has a fixed length; the parsers do not check
  that length, opening the key does (`Payloads.WrapPayloadInjective`, `Payloads.WrapPayloadAmbiguous`).
* A rotated key can miss recipients in two ways (`Rotation.RotationReachesEveryone`). A REKEY goes to the nick on
  record, but answering a KEYREQ wipes that, so a peer whose requests were all answered is addressed by the ident of
  its handle (`Addressing.AnsweredPeersGoByIdent`, `Addressing.SayingMissesAlice`). And when a KEYREQ is answered
  before the next message is sent, the answer replaces the key and the other recipients are sent nothing
  (`Addressing.AnswerMissesAlice`).
* `/e2e revoke` and `/e2e decline` last until the peer's next REKEY, which makes the session trusted again
  (`Wrapping.RekeyUndoesRevoke`, `Sessions.BecomesTrusted`).
* Session keys do not move forward: a REKEY that is delivered again brings back its key
  (`Wrapping.ReplayedRekeyBringsBackKey`).
* A KEYREQ cached in normal mode writes a session with a key of zeros, which `/e2e unrevoke`, or `/e2e decline` and
  then `/e2e accept`, makes trusted (`Provenance.TrustedKeysWereInstalled`, `Provenance.UnrevokeTrustsNoKey`,
  `Provenance.AcceptTrustsNoKey`).
* When a side gives up a request and sends another, the answer to the first uses up the second. A handshake can so end
  with every message delivered and one side without a session (`Retry.TrustedIffAnsweredInTime`,
  `Retry.RetriedHandshakeCanFail`).
* A line too long to cut up is sent as typed, in the clear (`KeyringStore.Store.InputText`,
  `KeyringStore.LongTextGoesOutPlain`).
* The WHO budget leaves four characters for the query counter. With a counter of five digits the command overruns 512
  bytes exactly when the list uses up its 490 (`WhoQueue.SentBatchFits`, `WhoQueue.FullBudgetOverruns`).
* `remove_env_value` leaves a line written `KEY = value` in place, though `load_env` reads it
  (`EnvFile.RemoveIsDrop`).
* A leftover line in `.env` becomes the password of a new server with that id; the web password's line does so for a
  server called `web` (`Credentials.LeftoverBreaksAgreement`, `Credentials.WebPasswordIsTaken`). A hand-written
  `ID_SASL_USER` line overrides the user saved in `config.toml` (`Credentials.UserAfterSave`,
  `Credentials.HandWrittenUserWins`), and a secret written into `config.toml` by hand goes with the next save of
  another server (`Credentials.HandWrittenSecretIsLost`, `Credentials.TomlPasswordGone`).
* If the first query that reaches the database fails, the log browser never shows any history of that buffer
  (`LogPager.ShownIffFirstAnswered`, `LogPager.FailedQueryHidesRow`).
* Substitution is token-wise because originals hold no blanks, which the link pattern guarantees.

## Model

| member | source | states |
|---|---|---|
| KeyringStore.Store.AllowOutgoing | scripts/weechat/rpe2e.py:1004-1010 | result and new tables are those of the value-level step; only the send times change |
| KeyringStore.Store.BuildKeyreq | scripts/weechat/rpe2e.py:1145-1171 | a request younger than 120 s blocks a second one; otherwise a fresh one replaces it and is what the message carries |
| KeyringStore.Store.GetOrGenerateOutgoingKey | scripts/weechat/rpe2e.py:1735-1763 | returns the stored key unless it is missing or due for rotation, in which case the fresh one is stored; tells whether a rotation was due |
| KeyringStore.Store.BuildKeyrspForReq | scripts/weechat/rpe2e.py:1174-1210 | wraps the channel's current key for the request and records the requester as trusted peer and as recipient; a refused point changes nothing |
| KeyringStore.Store.MaybeBuildReciprocalKeyreq | scripts/weechat/rpe2e.py:1213-1231 | asks back only where no session is trusted, no request is outstanding and the send limit allows; the send time is taken in any case |
| KeyringStore.Store.BuildReciprocalKeyreqOnAccept | scripts/weechat/rpe2e.py:1234-1247 | drops the outstanding request and asks afresh unless the session is trusted already |
| KeyringStore.Store.HandleKeyreq | scripts/weechat/rpe2e.py:1250-1388 | for every body, well formed or not, the new tables, limiter buckets and replies are exactly those of the specified step |
| KeyringStore.Store.AdmitKeyreq | scripts/weechat/rpe2e.py:1281-1331 | the same for the part behind limiter, signature and channel switch |
| KeyringStore.Store.TreatKeyreq | scripts/weechat/rpe2e.py:1332-1388 | the same for the choice between dropping, caching and answering |
| KeyringStore.Store.HandleKeyrsp | scripts/weechat/rpe2e.py:1391-1519 | the same for KEYRSP; a request is consumed even when the key does not open |
| KeyringStore.Store.InstallAnswer | scripts/weechat/rpe2e.py:1442-1513 | the same for the part that checks who the sender is and installs the key |
| KeyringStore.Store.HandleRekey | scripts/weechat/rpe2e.py:1522-1617 | the same for REKEY |
| KeyringStore.Store.HandleNotice | scripts/weechat/rpe2e.py:1901-1956 | a notice is dispatched to the handler of its kind, and any other text changes nothing |
| KeyringStore.Store.HandlePrivmsg | scripts/weechat/rpe2e.py:1766-1837 | what is shown is the specified outcome, and the keyring changes only where the key is missing |
| KeyringStore.Store.DistributeRekey | scripts/weechat/rpe2e.py:1642-1670 | whatever order the rows come in, exactly the recipients with a peer row are sent the key, each wrapped for its own row, and to the nick on record or else the ident of the handle |
| KeyringStore.Store.EncryptText | scripts/weechat/rpe2e.py:1881-1893 | the loop sends the lines of all pieces exactly when the text has a legal split and the associated data can be packed, and otherwise leaves the text as typed |
| KeyringStore.Store.InputText | scripts/weechat/rpe2e.py:1843-1898 | a typed line goes out encrypted, all of it, exactly when it is no command, the channel was enabled and it can be cut up and packed; the keyring step happens even where it then cannot |
| KeyringStore.LongTextGoesOutPlain | scripts/weechat/rpe2e.py:1881-1893 | an ordinary text of 2881 bytes cannot be encrypted, so it goes out as typed |
| KeyringStore.Store.Accept | scripts/weechat/rpe2e.py:2043-2082 | `/e2e accept` answers the cached request, else trusts the session, as specified |
| KeyringStore.Store.ScheduleRotation | scripts/weechat/rpe2e.py:2299-2305 | an existing channel key is marked for rotation and nothing else changes |
| KeyringStore.Store.Decline | scripts/weechat/rpe2e.py:2083-2103 | drops the cached request and revokes the session |
| KeyringStore.Store.Revoke | scripts/weechat/rpe2e.py:2104-2125 | revokes the session, drops the recipient and schedules the rotation |
| KeyringStore.Store.StartUp | scripts/weechat/rpe2e.py:488-492 | outstanding requests, buckets and send times do not survive a restart |
| Keyring.BuildKeyreq | scripts/weechat/rpe2e.py:1145-1171 | only the table of outstanding requests changes, and whatever is in it afterwards was there before or is the secret of the message just built |
| Keyring.BuildKeyrsp | scripts/weechat/rpe2e.py:1174-1210 | only the requester's peer row and recipient row and the channel key may change; the key handed out is the channel's current one |
| Keyring.HandleKeyreq | scripts/weechat/rpe2e.py:1250-1388 | touches no session but the sender's for that channel, none that is trusted, no peer row but the requester's, and sends nothing but answers to the sender |
| Keyring.HandleKeyrsp | scripts/weechat/rpe2e.py:1391-1519 | touches nothing but the answered request, the sender's session and the responder's peer row, and installs only by consuming a request |
| Keyring.HandleRekey | scripts/weechat/rpe2e.py:1522-1617 | touches nothing but the sender's session, and that only by installing a trusted key under the fingerprint of the signer |
| Keyring.AutoKeyreq | scripts/weechat/rpe2e.py:1802-1825 | an undecipherable line changes requests and send times only |
| Keyring.SendText | scripts/weechat/rpe2e.py:1873-1884 | the text key is the channel's key afterwards, and nothing but that key changes |
| Keyring.Accept | scripts/weechat/rpe2e.py:2043-2082 | accepting sends a KEYRSP only to whoever made the cached request |
| Answering.AnsweredExactly | scripts/weechat/rpe2e.py:1250-1388 | over every keyring, a KEYREQ is answered exactly when the limiter lets it through, its signature is good, its channel is on, its key and handle are not known otherwise, its point is good, and its sender's session is trusted, a global rule or one of this channel matches, or the channel's mode is one of the two that answer |
| Answering.QuietDrops | scripts/weechat/rpe2e.py:1347-1349 | in quiet mode a request that nothing entitles is not answered; its sender is pinned and counted, and no session, request, recipient or key changes |
| Answering.NormalCaches | scripts/weechat/rpe2e.py:1350-1373 | in normal mode it is cached behind a session row with a key of 32 zeros, nothing else changes and nothing is sent |
| Answering.InadmissibleIsDropped | scripts/weechat/rpe2e.py:1250-1303 | a request that is not admissible is counted and changes nothing else |
| Answering.EntitledIsServed | scripts/weechat/rpe2e.py:1374-1388 | an entitled request is sent the channel's key, made afresh where there is none or its rotation is due, sealed for its ephemeral key; its sender becomes trusted peer and recipient; and it is asked for its key in return exactly if no session is trusted, no request is outstanding and the last attempt is 30 s old |
| Answering.UnreadableLineAsks | scripts/weechat/rpe2e.py:1802-1825 | a line without a trusted session sends a KEYREQ exactly if the last attempt is 30 s old and no request younger than 120 s is outstanding |
| Answering.HandshakeAsks | scripts/weechat/rpe2e.py:2160-2178 | `/e2e handshake` sends an unaddressed KEYREQ unless one younger than 120 s is outstanding |
| Answering.AcceptServes | scripts/weechat/rpe2e.py:2056-2073 | `/e2e accept` on a cached request serves it like an entitled one and asks back in place of any outstanding request, unless a session is trusted |
| Answering.SayingSends | scripts/weechat/rpe2e.py:1879-1884 | a line goes out under the channel's key, made afresh where there is none or its rotation is due, and a due rotation sends the new key to every recipient with a peer row and to nobody else, each sealed for its long-term key, to the nick on record or else the handle up to its first `@` |
| Answering.KeyrspInstalls | scripts/weechat/rpe2e.py:1391-1513 | a signed KEYRSP that opens under the addressed request, or else the unaddressed one, from a sender that fits, installs its key, settles that request and changes nothing else |
| Answering.KeyrspIsSpent | scripts/weechat/rpe2e.py:1418-1445 | one that does not open or whose sender does not fit uses up that request and changes nothing else |
| Answering.RekeyInstalls | scripts/weechat/rpe2e.py:1522-1617 | a signed REKEY that opens, from the pinned peer and without a clash, installs its key and changes nothing else |
| Answering.RekeyIsIgnored | scripts/weechat/rpe2e.py:1522-1605 | any other changes nothing |
| Manual.HandshakeSucceeds | scripts/weechat/rpe2e.py:2160-2178 | under any suite with the laws, for a peer that fits: after `/e2e handshake` the KEYRSP the peer makes for that KEYREQ installs the peer's channel key and settles the unaddressed request and no other |
| Manual.AddressedGoesFirst | scripts/weechat/rpe2e.py:1412-1432 | with an unaddressed and an addressed request outstanding, the answer to the addressed one installs, settles that one and leaves the other |
| Manual.AcceptCompletes | scripts/weechat/rpe2e.py:2043-2075 | under any suite with the laws: a peer's KEYREQ waits in normal mode, the user accepts; the KEYRSP sent gives the peer our channel key and the KEYREQ sent with it brings back the peer's, whatever mode the peer is in |
| Manual.SuchMeetingsExist | scripts/weechat/rpe2e.py:2043-2075 | there are two such clients |
| Commands.ModeIsLastSet | scripts/weechat/rpe2e.py:1976-2006 | over every run from an empty keyring: a channel is on and in a mode exactly when the last `on`, `mode` or `off` for it says so |
| Commands.RulesAreThoseGiven | scripts/weechat/rpe2e.py:2376-2410 | over every run: an autotrust rule is in force exactly when it was given and its pattern not removed since, in whatever scope |
| Limiter.IncomingBucket.Admit | scripts/weechat/rpe2e.py:382-393 | one bucket takes the specified decision and is left in the specified state |
| Limiter.IncomingLimiter.AllowIncoming | scripts/weechat/rpe2e.py:377-393 | the handle's bucket takes the specified step, an unknown handle counting as an empty bucket, and all other buckets stay |
| Limiter.KeepLive | scripts/weechat/rpe2e.py:388 | the filter over the recent times keeps exactly those inside the minute, in order |
| Limiter.LimiterMeetsReference | scripts/weechat/rpe2e.py:377-393 | request by request the bucket decides what a reading of the whole request history decides |
| Limiter.AtMostThreePerMinute | scripts/weechat/rpe2e.py:76-78 | for every clock that does not run back, any half-open 60 s span holds at most three accepted requests |
| Limiter.TripSilences | scripts/weechat/rpe2e.py:383-384 | after a request trips the limit nothing is let through for 300 s |
| Limiter.TripReopens | scripts/weechat/rpe2e.py:385-393 | the first request after those 300 s is let through |
| Limiter.DecisionsInWords | scripts/weechat/rpe2e.py:377-393 | whatever the times of a handle's requests: one is turned away unheard exactly within 300 s of one that tripped the limit, and otherwise let through exactly if fewer than three were let through in the last 60 s |
| Pinning.RewriteKeepsPins | scripts/weechat/rpe2e.py:687-704 | writing the row of a fingerprint that classified as known or new keeps pins one to one |
| Pinning.NoSessionClash | scripts/weechat/rpe2e.py:1487-1504 | where pins hold, no session can disagree with a key that passed classification |
| Pinning.StepKeepsPins | scripts/weechat/rpe2e.py:1250-1617 | every message and every command but reverify and import keeps fingerprints, handles, sessions, cached requests and recipients pinned |
| Pinning.RunKeepsPins | scripts/weechat/rpe2e.py:1250-1617 | so does every run |
| Pinning.IdentityPinning | scripts/weechat/rpe2e.py:687-704 | from an empty keyring, over every run: pins one to one, each session under the fingerprint pinned to its handle, both mismatch branches (1489, 1598) dead |
| Sessions.RemoteKeepsTrusted | scripts/weechat/rpe2e.py:1250-1617 | no network message lowers a trusted session or changes its fingerprint, and only one signed by the pinned key from the pinned handle changes its key |
| Sessions.RemoteKeepsRevokedPeers | scripts/weechat/rpe2e.py:1281-1293 | no network message alters the row of a revoked peer |
| Sessions.RemoteRunsKeepTrust | scripts/weechat/rpe2e.py:1250-1617 | both hold over every sequence of network messages |
| Sessions.BecomesTrusted | scripts/weechat/rpe2e.py:1391-1617 | a network message makes an untrusted session trusted exactly when it carries a signed key for it that opens, from a sender who is known or, for an answer, new, and that does not clash; that the session was revoked plays no part |
| Sessions.StepCosts | scripts/weechat/rpe2e.py:1145-1247 | one step adds at most one outstanding request per KEYREQ sent and consumes one per install |
| Sessions.NoUnsolicitedInstall | scripts/weechat/rpe2e.py:1412-1433 | over every run from an empty keyring, installs plus outstanding requests never exceed the KEYREQs sent |
| Wrapping.SealedWrapOpens | scripts/weechat/rpe2e.py:1174-1190 | a wrapped key verifies, names its sender and opens to the same key under the other half of the exchange |
| Wrapping.KeyrspCarriesKey | scripts/weechat/rpe2e.py:1174-1210 | the KEYRSP for a request opens, with that request's secret, to the responder's channel key |
| Wrapping.RekeyInstalls | scripts/weechat/rpe2e.py:1522-1639 | a REKEY installs exactly the new key at the addressee that knows its sender |
| Wrapping.RekeyUndoesRevoke | scripts/weechat/rpe2e.py:1606-1616 | the next REKEY of a peer whose session was revoked or declined makes the session trusted again |
| Wrapping.LastRekeyWins | scripts/weechat/rpe2e.py:1522-1617 | over every sequence of REKEYs of a known sender, repeated or out of order, the session holds the key of the last one delivered |
| Wrapping.ReplayedRekeyBringsBackKey | scripts/weechat/rpe2e.py:1522-1617 | so a REKEY delivered again after a newer one brings back the key it carries |
| Wrapping.OutstandingWereAsked | scripts/weechat/rpe2e.py:1145-1171 | every outstanding request of a run belongs to a KEYREQ that the run sent |
| Wrapping.InstallAnswersRequest | scripts/weechat/rpe2e.py:1412-1513 | an installed key is the one sealed for the ephemeral key of a KEYREQ sent earlier in the run |
| Provenance.StepRowAfter | scripts/weechat/rpe2e.py:1250-1617 | one event writes a session's key exactly if it is an answer or REKEY that passes every guard, or a KEYREQ that is cached; otherwise the key stays, and only the user's commands make the session trusted |
| Provenance.SessionKeysHaveOrigin | scripts/weechat/rpe2e.py:1250-1617 | over every run from an empty keyring each session has a last event that wrote it, and its key is the one that event carried, or all zeros if it was a cached KEYREQ |
| Provenance.TrustedKeysWereInstalled | scripts/weechat/rpe2e.py:1352-1357 | a trusted session's key came with a KEYRSP or REKEY unless its row was last written by caching a KEYREQ, and then the user has made it trusted since |
| Provenance.UnrevokeTrustsNoKey | scripts/weechat/rpe2e.py:2126-2142 | under any suite with the laws: a peer's first KEYREQ in normal mode and `/e2e unrevoke` leave a trusted session whose key is all zeros |
| Provenance.AcceptTrustsNoKey | scripts/weechat/rpe2e.py:2065-2103 | so do that KEYREQ, `/e2e decline` and `/e2e accept` |
| Rotation.AnswersOnlyRequests | scripts/weechat/rpe2e.py:1380-1388 | a KEYRSP goes only to the maker of a KEYREQ that was just received or is cached |
| Rotation.RevokedKeyIsNeverUsed | scripts/weechat/rpe2e.py:2104-2125 | after a revoke no event of any later run uses the old channel key, as long as fresh keys do not repeat it |
| Rotation.RunKeepsKeyGone | scripts/weechat/rpe2e.py:1735-1763 | a channel key that is missing, replaced or due for rotation is used by no event of any run, as long as fresh keys do not repeat it |
| Rotation.RevokedPeerGetsNoKey | scripts/weechat/rpe2e.py:2115-2125 | after a revoke the peer is sent no REKEY and is no recipient until one of its KEYREQs has been answered again |
| Rotation.RekeysFollowPins | scripts/weechat/rpe2e.py:1642-1670 | a REKEY for a peer is wrapped to that peer's own pinned key |
| Rotation.SayReachesOne | scripts/weechat/rpe2e.py:1642-1670 | a message sent with a rotation due gets the new key to a recipient exactly when the nick on record, or else the ident of its handle, is the nick it goes by |
| Rotation.RotationReachesEveryone | scripts/weechat/rpe2e.py:1735-1763 | when an event replaces the channel key, all recipients get it exactly when, before the event, every recipient's recorded address was its nick and the event is a message of ours, or nobody but the requester was a recipient |
| Addressing.KeyreqNotes | scripts/weechat/rpe2e.py:1250-1331 | a KEYREQ that gets past limiter, signature, channel switch and classification leaves its nick on record unless it is answered; any other leaves the peer table alone |
| Addressing.NickOnRecord | scripts/weechat/rpe2e.py:1190-1331 | over every run from an empty keyring: a nick is on record for a key exactly when the last event that admitted or answered a KEYREQ of it, or installed its answer, was a KEYREQ from that nick that got no answer |
| Addressing.AnsweredPeersGoByIdent | scripts/weechat/rpe2e.py:1656-1661 | a recipient whose admitted KEYREQs were all answered is sent its REKEYs to the ident of its handle, so it gets them exactly when that is its nick |
| Addressing.AskIsReceived | scripts/weechat/rpe2e.py:1041-1171 | under any suite with the laws the KEYREQ a client makes is parsed as it was printed, for a channel without white space, and its signature is good |
| Addressing.SayingMissesAlice | scripts/weechat/rpe2e.py:1656-1661 | under any suite with the laws and for any two peers: after the run in which one peer's KEYREQ is answered and a rotation is asked for, a message of ours sends the REKEY for that peer to the ident of its handle, and it gets the new key exactly if that is its nick |
| Addressing.AnswerMissesAlice | scripts/weechat/rpe2e.py:1735-1763 | after the same run the answer to another peer replaces the key, and the first peer, still a recipient, is not reached under any nick |
| Addressing.SuchPeersExist | scripts/weechat/rpe2e.py:1656-1661 | there are such peers, with a nick that is not the ident of the handle |
| Spacing.StepSpacing | scripts/weechat/rpe2e.py:1004-1010 | every event but a restart keeps the time of the last attempt or moves it on, and a KEYREQ sent unasked is 30 s or more past it |
| Spacing.AskedEveryThirtySeconds | scripts/weechat/rpe2e.py:1004-1010 | over every run, two KEYREQs that go to one handle unasked, for an unreadable line or in return for its own, are at least 30 s apart until a restart |
| Convergence.RequestIsAnswered | scripts/weechat/rpe2e.py:1250-1388 | a genuine KEYREQ that the limiter lets through passes every other guard of an auto-accepting client |
| Convergence.AnswerIsInstalled | scripts/weechat/rpe2e.py:1391-1519 | the genuine answer to an outstanding request is installed and settles it |
| Convergence.AnsweringKeepsSides | scripts/weechat/rpe2e.py:1174-1231 | answering moves the asker's request on and makes the answerer ask exactly if it had not |
| Convergence.NextKeepsInv | scripts/weechat/rpe2e.py:1145-1519 | every action, whichever message is delivered, keeps both keyrings, the messages under way and the counters consistent with how far each request has got |
| Convergence.OverdueAsksAgain | scripts/weechat/rpe2e.py:1145-1171 | a side asks a second time exactly when its request is two minutes old and the send limit allows |
| Convergence.HandshakeConverges | scripts/weechat/rpe2e.py:1145-1519 | whoever asks first, whether both ask, whenever and in whatever order messages arrive, at most two KEYREQs and two KEYRSPs are sent, and once something was sent and nothing is under way, exactly two of each were and each side holds the other's key as trusted |
| Retry.StepAlone | scripts/weechat/rpe2e.py:1145-1519 | whatever one message of the peer brings, the secret recorded is that of the last KEYREQ sent unless a KEYRSP has come since, and the session becomes trusted exactly by an answer that opens under it |
| Retry.TrustedIffAnsweredInTime | scripts/weechat/rpe2e.py:1145-1519 | over every run of one side, requests given up and made again included: the side ends with the session exactly when some KEYRSP opened under the secret of the request outstanding when it came |
| Retry.SettledSideAnswers | scripts/weechat/rpe2e.py:1250-1388 | a settled side answers every genuine KEYREQ that the limiter lets through, and stays settled |
| Retry.WrongAnswerSpoils | scripts/weechat/rpe2e.py:1412-1441 | the answer to an abandoned request uses up the new one, and the answer to that finds no request |
| Retry.RetriedHandshakeCanFail | scripts/weechat/rpe2e.py:1145-1519 | given two secrets whose answers do not open for each other: from any start of the two clients there is a run in which every message arrives and nothing stays under way, one side has its session, and the other, having asked again after two minutes, has none |
| Retry.SuchSecretsExist | scripts/weechat/rpe2e.py:1145-1171 | there are such a start, a suite with the laws, and two secrets whose answers do not open for each other |
| EndToEnd.SettledSideSends | scripts/weechat/rpe2e.py:1750-1763 | a side whose peer holds its key sends under that key, without rekeying |
| EndToEnd.ConvergedPeersTalk | scripts/weechat/rpe2e.py:1766-1898 | after any such run the other side reads exactly the text either side types, from all the lines it is sent as |
| EndToEnd.ConvergedPeersRotate | scripts/weechat/rpe2e.py:1642-1898 | after any such run a rotation and a line: the line goes out under the new key with a REKEY for the peer, to the ident of its handle, and once that has arrived the peer holds the new key and reads the text |
| Payloads.KeyreqPayloadInjective | scripts/weechat/rpe2e.py:633-636 | a signed KEYREQ payload determines all its fields, colons in the channel or not |
| Payloads.WrapPayloadInjective | scripts/weechat/rpe2e.py:639-684 | a signed KEYRSP or REKEY payload determines all its fields exactly when the length of the wrapped key is fixed |
| Payloads.WrapPayloadAmbiguous | scripts/weechat/rpe2e.py:639-684 | without that length two different messages share a payload |
| Payloads.PayloadKindsDisjoint | scripts/weechat/rpe2e.py:633-684 | no payload of one kind is a prefix of one of another kind |
| Formats.WireLines | scripts/weechat/rpe2e.py:1673-1701 | a line is taken for an encrypted message exactly if it has the prefix, 16 characters of hex, a time, a part of at most 16, a nonce of 24 bytes and a ciphertext, each in its place |
| Wire.WireRoundTrip | scripts/weechat/rpe2e.py:1673-1710 | every well-formed line is read back as printed |
| Wire.WireIsAscii | scripts/weechat/rpe2e.py:1704-1710 | every character of an encrypted line takes one byte |
| Wire.WireLength | scripts/weechat/rpe2e.py:1704-1710 | a line with a chunk of at most 180 bytes has at most 340 bytes while timestamps have ten digits |
| Wire.AadInjective | scripts/weechat/rpe2e.py:541-565 | associated data determines channel, message id, time, part and total |
| Formats.AadBytes | scripts/weechat/rpe2e.py:541-565 | the bytes authenticated with a chunk are protocol, channel, message id, time, part and total in the documented layout |
| Formats.SignedBytes | scripts/weechat/rpe2e.py:633-684 | the bytes signed in each kind of handshake message |
| Numerals.ParsePrint | scripts/weechat/rpe2e.py:1684 | every integer is read back as printed |
| Numerals.FromHexOfHex | scripts/weechat/rpe2e.py:1693 | hexadecimal reads back as printed |
| Base64.DecodeEncode | scripts/weechat/rpe2e.py:1688-1691 | padded base64 survives the lenient scanner |
| Base64.UrlRoundTrip | scripts/weechat/rpe2e.py:1032-1038 | unpadded URL base64 survives the restored padding |
| Utf8.DecodeEncode | scripts/weechat/rpe2e.py:1832-1836 | every text survives UTF-8 encoding and strict decoding |
| Utf8.DecodeStrict | scripts/weechat/rpe2e.py:1832-1836 | strict decoding yields a text from its encoding and from nothing else |
| Chunker.SplitPlaintext | scripts/weechat/rpe2e.py:1713-1732 | the loops over bytes cut the text into its greedy pieces, or report the empty text or too many pieces; the third error never arises |
| Chunker.GreedyIsLegal | scripts/weechat/rpe2e.py:1713-1732 | the greedy pieces are non-empty, fit 180 bytes and make up the text |
| Chunker.GreedyIsBest | scripts/weechat/rpe2e.py:1713-1732 | no legal split has fewer pieces |
| Chunker.BoundaryAt | scripts/weechat/rpe2e.py:1724-1725 | a byte that is no continuation byte begins a character, so no chunk cuts one |
| Chunker.SplitIsOptimal | scripts/weechat/rpe2e.py:1713-1732 | the chunks encode a shortest legal split and concatenate to the text's bytes, and a non-empty text is refused exactly when no legal split into sixteen exists |
| Chunker.SplitLimits | scripts/weechat/rpe2e.py:1713-1732 | never fails up to 2832 bytes, always above 2880 |
| Delivery.SendChunks | scripts/weechat/rpe2e.py:1886-1893 | the loop yields the line of every chunk in order, or stops at the first that cannot be packed |
| Delivery.AllChunksGo | scripts/weechat/rpe2e.py:541-565 | a chunk can be packed exactly when the channel name is below 65536 bytes and the time fits 64 bits |
| Delivery.ChunkArrives | scripts/weechat/rpe2e.py:1766-1837 | one encrypted chunk parses and decrypts to its piece |
| Delivery.LoopSendsMessage | scripts/weechat/rpe2e.py:1886-1893 | the loop that runs to the end has sent the line of every piece |
| Delivery.MessageArrives | scripts/weechat/rpe2e.py:1766-1898 | a receiver with the sender's key, within 300 s, reads from the lines of a message the text that was typed |
| Delivery.LinesAreShort | scripts/weechat/rpe2e.py:1704-1732 | every line of a message has at most 340 bytes |
| Delivery.ShownWasSealed | scripts/weechat/rpe2e.py:1766-1837 | whatever is shown was sealed under the sender's trusted key for the very channel, message, time and part on the line |
| Delivery.ReceiveMeans | scripts/weechat/rpe2e.py:1766-1837 | when a received line is left alone, dropped, answered by asking for the key, shown as which text, or shown garbled |
| Formats.MessageLines | scripts/weechat/rpe2e.py:1885-1893 | the lines of a message are at most 16, numbered from one under one message id, and carry the text in non-empty pieces of at most 180 bytes, each sealed with its own place |
| Handshake.ParseKvStrict | scripts/weechat/rpe2e.py:1013-1029 | the loop over the fields yields the specified map, or nothing at a repeated key |
| Handshake.CollectMeans | scripts/weechat/rpe2e.py:1013-1029 | a body is refused exactly when a key repeats, and otherwise its map holds exactly its keyed fields |
| Handshake.OrderOfFieldsIsImmaterial | scripts/weechat/rpe2e.py:1013-1029 | every permutation of the fields gives the same result |
| Formats.KeyreqBody | scripts/weechat/rpe2e.py:1041-1066 | a body is taken for a KEYREQ exactly if it has seven words or more, the first two are the right ones, no key repeats, the version is 1 and the five fields decode to the right lengths |
| Formats.WrapBody | scripts/weechat/rpe2e.py:1069-1142 | the same for KEYRSP and REKEY with nine words and seven fields, the length of the wrapped key apart |
| Formats.WordsOfSpread | scripts/weechat/rpe2e.py:1041-1045 | the words of a body are what white space of any kind and length separates |
| Handshake.KeyreqRoundTrip | scripts/weechat/rpe2e.py:1041-1171 | a KEYREQ is read back as printed exactly when its channel holds no white space |
| Handshake.WrapRoundTrip | scripts/weechat/rpe2e.py:1069-1210 | the same for KEYRSP and REKEY and any length of the wrapped key |
| Handshake.NoticesArrive | scripts/weechat/rpe2e.py:1915-1955 | every notice sent is sorted to its handler and parsed back |
| Formats.NoticesAreSorted | scripts/weechat/rpe2e.py:1915-1955 | a framed notice that opens with one of the three kinds goes to the handler of that kind, and any other text to none |
| Sas.FingerprintBip39 | scripts/weechat/rpe2e.py:513-524 | the loop shows the words of the first six indices |
| Sas.IndicesAreTheNumber | scripts/weechat/rpe2e.py:513-524 | the twelve indices are below 2048 and recompose the 132 bits of fingerprint and checksum |
| Sas.WordsComparePrefixes | scripts/weechat/rpe2e.py:513-524 | two fingerprints show the same six words exactly when their first 66 bits agree |
| WhoQueue.Scheduler.QueueChannelQuery | src/app/who.rs:10-20 | the connection takes the specified step and no other connection changes |
| WhoQueue.Scheduler.SendChannelQueryBatch | src/app/who.rs:23-145 | the same for sending a batch, the dropped batch without a handle included |
| WhoQueue.Scheduler.TakeBatch | src/app/who.rs:54-77 | the popping loop takes exactly the specified number of channels off the front |
| WhoQueue.Scheduler.HandleWhoBatchComplete | src/app/who.rs:149-181 | the connection takes one of the specified steps; of names that differ in case only, any may be struck off |
| WhoQueue.Scheduler.CheckStaleWhoBatches | src/app/who.rs:191-210 | every connection takes its timer step at once, in whatever order the stale ones are visited |
| WhoQueue.Scheduler.OnHandleReady | src/app/irc.rs:285-299 | the connection becomes ready and keeps its queue |
| WhoQueue.Scheduler.OnDisconnected | src/app/irc.rs:446-486 | handle, queue, batch and send time are all gone |
| WhoQueue.RemoveCaseInsensitive | src/app/who.rs:213-225 | an exact match goes first, else any entry equal but for ASCII case, else none |
| WhoQueue.StrikeOff | src/app/who.rs:156-162 | the target is struck off as a whole and, where it is a list, name by name |
| WhoReplies.ReplyStrikes | src/app/who.rs:149-181 | an end-of-WHO reply for a list strikes off, up to ASCII case, as many channels of each name as it names and no others, and when nothing is left the next batch goes out at once |
| WhoReplies.ReplyEnds | src/app/who.rs:149-181 | it ends the batch exactly if it names every channel in flight as often as the batch has it, up to case |
| WhoReplies.OwnListEnds | src/app/who.rs:149-181 | the reply for the very list that was sent ends its batch |
| WhoReplies.SinglesEnd | src/app/who.rs:149-181 | replies for single channels, in any order and ASCII case, leave one channel less in flight each and end the batch with the last one, not before |
| WhoReplies.VariantsEnumerate | src/app/who.rs:213-225 | the channels of a batch, reordered and with the case of any letters changed, are such replies |
| WhoReplies.RepliesDrain | src/app/who.rs:149-181 | when every list is answered, each reply sends the next batch at once, as large as five channels and the byte budget allow, until nothing waits; nothing is lost or reordered |
| WhoReplies.TimerSends | src/app/who.rs:191-210 | the timer sends the next batch exactly if the last one went out more than 30 s ago |
| WhoQueue.BatchIsFull | src/app/who.rs:54-77 | a batch has one to five channels, is within the budget unless it is a single one, and could not have taken the next |
| WhoQueue.StepKeepsLive | src/app/who.rs:10-210 | at every event boundary a batch in flight is non-empty and has a send time, and whatever waits, waits for one |
| WhoQueue.RunKeepsLive | src/app/who.rs:10-210 | so over every run |
| WhoQueue.NothingIsLost | src/app/who.rs:10-145 | while the connection is up, batches sent and queue left make up the channels joined, in order, and every batch is full |
| WhoQueue.TimeoutsMakeProgress | src/app/who.rs:191-210 | every timeout sends at least one more channel while any waits |
| WhoQueue.QueueDrains | src/app/who.rs:191-210 | n waiting channels are sent within n timeouts, replies or none |
| WhoQueue.ListSizeIsBytes | src/app/who.rs:56-77 | the length the loop counts is that of the comma-joined list in bytes |
| WhoQueue.CommandFits | src/app/who.rs:43-52 | for every list: WHO with WHOX fits 512 bytes exactly if list and counter take at most 494, without it up to 506; MODE fits within the budget; a ban query fits up to a name of 503 bytes |
| WhoQueue.SentBatchFits | src/app/who.rs:43-127 | every batch sent whose first name is within the budget: MODE fits, WHO fits with a counter below 10000, and with one of five digits fails exactly for a list of 490 bytes |
| WhoQueue.FullBudgetOverruns | src/app/who.rs:54-115 | five channels that take 490 bytes leave the queue as one batch, and with the counter at 10000 their WHO takes 513 bytes |
| WhoQueue.SuchChannelsExist | src/app/who.rs:54-77 | there are five different names starting with # that take 490 bytes |
| LogPager.LogBuffer.RowsToBufferMessages | src/app/log_browser.rs:463-497 | but for ids the loop gives the rows rendered at once; the ids are consecutive |
| LogPager.LogBuffer.LoadInitialMessages | src/app/log_browser.rs:218-294 | but for ids the buffer takes the specified step, failures included |
| LogPager.LogBuffer.LoadOlderMessages | src/app/log_browser.rs:302-396 | the same for an older page, and on a buffer without log rows |
| LogPager.RenderConcat | src/app/log_browser.rs:463-497 | rendering in two parts is rendering at once, if the second part knows the day the first ended on |
| LogPager.SeamIsInvisible | src/app/log_browser.rs:356-390 | a page in front, the head separator adjusted, is what rendering all rows at once gives |
| LogPager.EarlierIsPrefix | src/storage/query.rs:155-164 | the strict cursor on a row of the log selects exactly the rows before it, same-second rows included |
| LogPager.OlderPage | src/app/log_browser.rs:302-396 | one older page extends the shown run by the next rows, none skipped and none twice, though the log has grown at its end since |
| LogPager.PagingIsRendering | src/app/log_browser.rs:218-396 | if the database answered when it was first there to be asked, then after any loads, failures and local events the buffer is the newest pages rendered at once, one per successful load, then the local events, and is exhausted exactly from n / 200 + 1 successful loads on |
| LogPager.ShownIffFirstAnswered | src/app/log_browser.rs:218-396 | over every sequence of actions: history is shown exactly when the database, the first time it was there to be asked, answered from a log with rows; otherwise no later load shows any |
| LogPager.FailedQueryHidesRow | src/app/log_browser.rs:285-293 | a log of one row whose first query fails: opening the buffer again and scrolling up show nothing |
| LogRows.RenderShows | src/app/log_browser.rs:463-535 | rendered rows, message by message: each row in its place with its time, writer, text, kind, highlight and number, and a day separator in front of it exactly where a day begins |
| LogRows.BufferShows | src/app/log_browser.rs:218-396 | after any loads, failures and local events, if the database answered when first asked, the buffer is exactly those messages for the newest 200 rows per successful load, then the local events |
| Shrink.ApplySubstitutions | src/app/shrink.rs:433-451 | the loop over the sorted list is the sequence of replacements |
| Shrink.SortMeans | src/app/shrink.rs:434-435 | the sorted list is a permutation, longest original first |
| Shrink.ReplacesTokenwise | src/app/shrink.rs:433-451 | originals without blanks are replaced in every blank-separated token by itself, whatever the text |
| Shrink.OriginalReplaced | src/app/shrink.rs:424-451 | longest first, an original is untouched before its turn and its replacement after |
| Shrink.SubstitutionIsTokenwise | src/app/shrink.rs:424-451 | on clean tokens the sequence equals mapping each token independently, prefixes of each other included |
| Shrink.OrderDoesNotShow | src/app/shrink.rs:433-451 | the order of the shortenings does not change the text |
| Shrink.BlankOriginalBreaksIt | src/app/shrink.rs:433-451 | an original with a blank would break the token-wise reading |
| ShrinkCache.Cache.Get | src/shrink/mod.rs:140-144 | a hit moves its entry to the newest end and changes nothing else |
| ShrinkCache.Cache.Insert | src/shrink/mod.rs:150-157 | a new entry goes to the newest end and pushes out the oldest only from a full cache |
| ShrinkCache.RecentSurvive | src/shrink/mod.rs:110-157 | an entry just used outlives uses of fewer other urls than the cache has places |
| ShrinkCache.UsedSurvives | src/shrink/mod.rs:110-157 | a url that was found or stored is still cached, with the same shortening, after such uses |
| ShrinkCache.ResolveShortenings | src/app/shrink.rs:370-416 | the result is, in the order of the links, the cached or requested shortening of each that has one; the cache is left as by looking up every link, then whatever the other worker does while the lock is free, then storing every answer in order |
| ShrinkCache.ResolvedInOrder | src/app/shrink.rs:386-416 | hits and answers, sorted by place, come out in the order of the links |
| EnvFile.LoadEnv | src/config/env.rs:8-33 | the loop yields the specified map; a missing file is an empty one |
| EnvText.ValueReads | src/config/env.rs:24-28 | a value is read as exactly what stands inside the blanks, then all double quotes at either end, then all single ones |
| EnvText.LineReads | src/config/env.rs:18-30 | a line assigns a value to a key exactly if, between blanks, it is no comment and its first equals sign stands between the two; any other line says nothing |
| EnvText.FileReads | src/config/env.rs:8-33 | a key of the file has a value exactly if the last line that assigns the key anything assigns it that value |
| EnvText.FormReads | src/config/env.rs:8-33 | a file of one assignment, with blanks anywhere around key and value and the value bare or in quotes of either kind, is read as that key and value |
| EnvText.UsualForms | src/config/env.rs:8-33 | so are `K=v`, `K="v"`, `K='v'` and `K = v` |
| EnvText.InnerQuotesStay | src/config/env.rs:26-27 | double quotes inside single ones stay part of the value |
| EnvText.NothingReads | src/config/env.rs:18-23 | a file of blank lines, comments and lines without an equals sign is read as nothing |
| EnvFile.SetEnvValue | src/config/env.rs:37-70 | the file written is that of the lines with the first line of the key replaced, or one appended behind a blank line |
| EnvText.SetWrites | src/config/env.rs:37-70 | setting writes over the first line of the key, or adds one at the end behind an empty line if the last one is not blank; every other line stays |
| EnvText.RemoveKeeps | src/config/env.rs:73-85 | removing drops the lines of the key and keeps the others in order |
| EnvFile.SetLoads | src/config/env.rs:37-70 | setting a key changes no other key, and gives it the value as parsed unless a later line overrides it |
| EnvFile.SetIsUpdate | src/config/env.rs:37-70 | setting is a map update exactly when no later line gives the key another value |
| EnvFile.RemoveIsDrop | src/config/env.rs:73-85 | removing drops the key alone exactly when no line of it has a space before the equals sign |
| EnvFile.SpacedKeySurvives | src/config/env.rs:73-85 | such a line survives its removal |
| EnvFile.TidySet | src/config/env.rs:37-70 | on a file with one prefixed line per key, setting is a map update and keeps the file so |
| EnvFile.TidyRemove | src/config/env.rs:73-85 | the same for removing |
| EnvFile.WrittenFile | src/config/env.rs:68-84 | reading the written file gives the map of the lines |
| EnvFile.SetFile | src/config/env.rs:8-70 | load after set is the old map updated at that key |
| EnvFile.RemoveFile | src/config/env.rs:8-85 | load after remove is the old map without that key |
| Credentials.ApplyCredentials | src/config/env.rs:136-159 | the loop over the servers fills in each server's own three credentials where the map has them |
| Credentials.WrittenSecretsLoad | src/config/env.rs:136-159 | a line `ID_PASSWORD`, `ID_SASL_PASS` or `ID_SASL_USER`, bare or quoted, gives the server that secret at the next start and nothing else |
| Credentials.Session.ApplyServerConfig | src/commands/handlers_admin.rs:40-84 | memory and both files end up as specified on success and on each failed write |
| Credentials.Session.RemoveServer | src/commands/handlers_admin.rs:524-566 | the same for `/server remove` |
| Credentials.SaveGoesAsFarAsItCan | src/commands/handlers_admin.rs:40-84 | a save changes the session at once and then writes configuration, password and SASL password in turn, up to the first write that fails |
| Credentials.KeysDiffer | src/commands/handlers_admin.rs:49-51 | keys of different lower-case ids or different secrets never coincide |
| Credentials.AgreementMeans | src/config/env.rs:136-159 | a restart comes up with the servers of the session exactly when, server by server, `.env` holds the secrets of the session under their keys and no other user, whatever it holds besides |
| Credentials.SaveKeepsAgreement | src/commands/handlers_admin.rs:40-84 | where memory and disk agree, a successful save leaves them so exactly when its values read back as given, no line overrides its SASL user, and a secret kept for a new server has no line |
| Credentials.BrokenValueIsLost | src/commands/handlers_admin.rs:67-82 | a secret with a line break never survives a restart |
| Credentials.UserAfterSave | src/config/env.rs:149-151 | for a saved server, the SASL user after a restart is the session's exactly when `.env` has no line for it or one with the same user |
| Credentials.HandWrittenUserWins | src/config/env.rs:149-151 | a server whose line says `hand` and whose saved user is `new` comes up with `hand` |
| Credentials.HandWrittenSecretIsLost | src/commands/handlers_admin.rs:54-66 | a secret in `config.toml` survives the save of another server exactly when `.env` holds one under its key too |
| Credentials.TomlPasswordGone | src/commands/handlers_admin.rs:54-66 | a password that stands in `config.toml` alone is gone at the start after another server was saved |
| Credentials.RemovalKeepsAgreement | src/commands/handlers_admin.rs:524-566 | a removal keeps agreement however its writes fare |
| Credentials.CommandsSurviveRestart | src/commands/handlers_admin.rs:40-84 | from the start-up state of any `.env` with one prefixed line per key and any secret-free configuration, after any sequence of removals and good saves, the servers rebuilt from disk equal those in memory |
| Credentials.LeftoverBreaksAgreement | src/commands/handlers_admin.rs:54-66 | a new server saved without a password has one after a restart exactly when its key was in the file before |
| Credentials.WebCollides | src/config/env.rs:93-95 | the web password's line is the password line of a server called `web` |
| Credentials.WebPasswordIsTaken | src/config/env.rs:136-159 | with a web password in `.env`, a server `web` added without a password comes up with that one |
| StripFormat.StripIrcFormatting | gui/src/format.rs:13-65 | the byte loops give the encoding of the stripped text, so they cut at character boundaries only |
| StripFormat.SkipRun | gui/src/format.rs:25-28 | an inner digit loop stops where the specified number of digits ends |
| StripFormat.CharacterAt | gui/src/format.rs:54-59 | the last inner loop stops where the character ends |
| StripFormat.StripLeavesNoCode | gui/src/format.rs:13-65 | no control code is left |
| StripFormat.StripFixesPlain | gui/src/format.rs:13-65 | a line is left alone exactly when it holds no code |
| StripFormat.StripIdempotent | gui/src/format.rs:13-65 | stripping twice is stripping once |
| StripPieces.StripLeavesLetters | gui/src/format.rs:13-65 | of a line read as letters, switches and colours, a colour having at most two decimal or six hex digits and a comma only in front of a digit, the letters are left |
| StripPieces.LineHasReading | gui/src/format.rs:13-65 | every line has such a reading |

## Left out

* Private-message contexts: sender and receiver derive different `@handle` keys, so delivery, convergence and
  `EndToEnd` speak of real channels; the steps of the keyring take any context string.
* `/e2e reverify`, `import` and `export`, the table of pending trust changes, and all printing to weechat buffers.
* `/e2e handshake` in the convergence theorem: it stores a request without a handle. It is an event of every other
  theorem over runs, and `Manual.HandshakeSucceeds` follows it to its end.
* Message loss and duplication in the convergence theorem. Runs in which a side asks again after its request has
  been outstanding for two minutes (`Convergence.OverdueAsksAgain`) are in `Retry`, one side at a time. Messages may
  be under way for any time.
* Which nick a peer goes by: it is a parameter of the theorems on who is reached. After the handshake the network of
  `EndToEnd.ConvergedPeersRotate` delivers the REKEY; whether the server would is what `Addressing` is about.
* Looking up a handle for a nick, taking a raw IRC line apart before the target and text are known, and everything
  weechat does.
* The generation of the long-term identity: a keyring has one from the start.
* Decimal digits outside ASCII and texts of more than 4300 digits in `int()`.
* `errors="replace"` decoding of a decrypted chunk that is not UTF-8: the outcome is `Garbled` with the bytes.
* The silent-reply flags, the list-mode reset and the sending of the MODE commands of a WHO batch, which follow the
  batch that is modelled (their lengths are in `WhoQueue.CommandFits`); the ERR and BATCH handling of
  `handle_irc_event`.
* The cached line count and date range of a log buffer, and the fields of a log message that rendering leaves empty.
* Finding the links in a text (a regular expression), the HTTP requests and their timeouts, the workers. The requests
  of one chunk of four run one after another here.
* File permissions, the other settings of a server (one opaque field here), the web and shrink credentials, the
  parsing of `/server add` arguments. Server ids are lower-case ASCII, as `/server add` makes them.
* The terminal, iced and web interfaces, image protocols, sessions, scripting, DCC, spell checking and storage:
  input and output around the parts that are modelled.
* Short helpers such as `parse_command`, `djb2_hash` and the colour conversions, which would add easy members only.
