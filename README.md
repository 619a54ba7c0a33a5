# Gmail attachment app: a verified model of its core

The application signs users in with Google OAuth and stores each user's credentials in a `UserToken` table. Every five minutes a scheduled job sweeps the stored credentials. The model assumes the job can query the table; see "## Left out". For each user it lists the first page of inbox messages with attachments (the list call is made once and `nextPageToken` is never followed) and looks at the top-level parts of each message. It keeps the parts whose filename ends in `.xls`, `.xlsx` or `.csv`. For each kept part it takes the base64url bytes from the inline body or from one attachment fetch, decodes them, and uploads them to the `attachments` bucket. The upload path is `folder/YYYYmmdd_HHMMSS_filename`, where the folder is the user's e-mail address with every `@` replaced by `_at_`. A signed-in user's dashboard lists up to 100 objects of their folder, each with its public URL.

The model is in six Dafny modules, one per concern:

- `Wrappers`: the `Option` type.
- `Base64Url`: the decoder the ingestion loop relies on (section 5 of RFC 4648), with an encoder whose round trip is proved. It agrees with Python's `urlsafe_b64decode` on canonical padded text; the differences are under "## Left out".
- `Storage` (storage.py):
  - the folder and object-path derivation, and the UTC timestamp text;
  - the bucket, a class whose `objects` log each upload appends to;
  - the listing, which degrades to an empty list on any failure.
- `Models` (models.py):
  - the credential table, a class whose row sequence `save_user_tokens` updates in place or extends;
  - `get_all_user_tokens`, which loads one credential per row.
- `Gmail` (gmail.py): `check_and_download_attachments`, as nested loops over the listed messages and their top-level parts.
  - Each loop is proved against a specification function: `Sync` gives the fetches, the uploads and whether the run ended without an exception.
  - The bucket afterwards is the old bucket plus the objects of those uploads.
- `App` (app.py):
  - the `oauth2callback` guard ladder;
  - the `dashboard` session gate;
  - the `job` sweep over users;
  - a `Server` class holding the table, the bucket and the session.

The external services are arguments:

- A `Mailbox` says what the Gmail list, get, attachment and profile calls return. A call that raises is a missing entry.
- A `Clock` gives the UTC second each upload reads.
- A `ListCall` gives what the bucket's list call returns for the folder it is asked for. `BucketList` is the list call of a bucket holding given objects.
- A `TokenOutcome` is what the OAuth token fetch did. A function gives the userinfo call's result for given credentials.
- `loadable` says which stored JSON texts `Credentials.from_authorized_user_info` accepts.
- `mailboxOf` gives the mailbox each credential opens.
- `dbSucceeds` says whether the credential save reaches the database. When it does not, the lookup or the commit of `save_user_tokens` raises and nothing is stored.

Neither the ingestion nor the job catches exceptions, so a call that raises ends the run. The uploads made before it stay in the bucket, and the users after it are not swept.

The code has no date watermark, no recursive part traversal, no lower-casing of extensions, no ingestion report and no per-user error isolation, so the model has none.

## Model

| member | source | states |
|---|---|---|
| Base64Url.Decode | gmail.py:25 | decoded text is a whole number of quanta; for q quanta the decoded length is between 3q-2 and 3q bytes, and exactly 3q when the text has no pad |
| Base64Url.DecodeEncode | gmail.py:30 | decoding the encoding of any byte string gives that byte string back |
| Base64Url.DecodeRejectsRaggedLength | gmail.py:25 | text whose length is not a multiple of four is rejected; for text of alphabet characters only, Python also raises (an "Incorrect padding" or invalid-length error) |
| Storage.Folder | storage.py:11 | the folder contains no '@', is no shorter than the address, and equals an address without '@' |
| Storage.FolderOfAddress | storage.py:11 | the folder of `local@domain` is `local_at_domain` |
| Storage.FolderSeparatesAddresses | storage.py:11 | two addresses with one '@' and no '_' in the domain never share a folder |
| Storage.FolderCollision | storage.py:11 | without that restriction, `x@y_at_z` and `x_at_y@z` are different addresses with the same folder |
| Storage.Stamp | storage.py:12 | the timestamp is 15 characters: eight digits, '_', six digits |
| Storage.ParseStampOfStamp | storage.py:12 | the timestamp text determines the UTC second it was taken from |
| Storage.ObjectPath | storage.py:11-13 | the storage path an upload writes, `folder/timestamp_filename`; the specification Bucket.Upload is proved to write, whose shape and injectivity ObjectPathShape and ObjectPathDetermines prove |
| Storage.ObjectPathShape | storage.py:11-13 | the path is the folder, '/', the 15-character timestamp, '_' and the original filename |
| Storage.ObjectPathDetermines | storage.py:12-13 | within a folder two upload paths are equal exactly when the second and the filename are equal |
| Storage.Bucket.Upload | storage.py:10-16 | an upload appends one object, at the derived path and holding the given bytes; nothing else changes |
| Storage.ListedFiles | storage.py:18-28 | the list call is asked for the address's folder; its failure or an entry without a name gives []; otherwise one entry per object in order, with the name unchanged and the public URL of folder/name |
| Storage.ListUserFiles | storage.py:18-28 | the loop builds exactly the listing ListedFiles describes |
| Storage.PublicUrl | storage.py:24 | the public URL of a name in a folder; PublicUrlOfPath proves it is the public prefix followed by the object's path |
| Storage.PublicUrlOfPath | storage.py:24 | the URL of `folder/name` is the base URL, the public prefix and the object path, in that order |
| Storage.FolderEntries | storage.py:21 | the names the list call gives for a folder, one per object directly in it, every entry named, no more entries than objects |
| Storage.BucketList | storage.py:21 | the list call of a bucket holding given objects: for each folder, the FolderEntries of those objects; the list call UploadIsListedUnderItsPath is proved over |
| Storage.UploadEndsFolder | storage.py:11-19 | an upload for an address (filename without '/') adds its `timestamp_filename` name as the last entry of that address's folder, and changes no earlier entry |
| Storage.UploadIsListedUnderItsPath | storage.py:11-24 | once an upload is in the bucket, listing the uploader's address shows it last, under `timestamp_filename`, with the public URL of the uploaded path (for a list call that returns the whole folder; see "## Left out" on the 100-entry cap) |
| Models.FirstWithEmail | models.py:17 | the index found is the first row carrying the address; None means no row carries it |
| Models.Upsert | models.py:15-23 | after the save some row carries the address with the new credential |
| Models.UpsertUpdatesExisting | models.py:17-19 | an existing row keeps its key and position and only its credential changes; no other row changes |
| Models.UpsertAddsNew | models.py:20-22 | a new address adds exactly one row at the end, under the next key; no other row changes |
| Models.UpsertKeepsTableValid | models.py:15-23 | the e-mail column stays unique, keys stay unique, and exactly one row carries the address |
| Models.UpsertIdempotent | models.py:15-23 | saving the same credential twice leaves the table as saving it once |
| Models.LoadAll | models.py:25-30 | loading fails exactly when some row cannot be loaded; otherwise one credential per row, in query order |
| Models.SavedCredentialIsLoaded | models.py:15-30 | after a save, loading the table gives that credential back for the address |
| Models.TokenTable.FindByEmail | models.py:17 | the search loop finds the first row carrying the address |
| Models.TokenTable.SaveUserTokens | models.py:15-23 | when the database answers, the table after the call is the upsert of the table before it; when it fails, the call raises and the table is unchanged; the schema constraints hold either way |
| Models.TokenTable.GetAllUserTokens | models.py:25-30 | the loop returns exactly what LoadAll describes, raising (None) on the first row it cannot load |
| Gmail.Deliver | gmail.py:25-39 | a kept part is uploaded exactly when its bytes decode and the profile call succeeds, with the decoded bytes under the profile's address |
| Gmail.TopParts | gmail.py:16 | `payload.parts`, or no parts when the payload or its parts are absent; the specification IngestParts is proved to loop over |
| Gmail.AllowedName | gmail.py:22-23 | the case-sensitive extension test; UppercaseExtensionSkipped shows its case sensitivity |
| Gmail.Selected | gmail.py:19-23 | the two filename filters together; PartStep skips every part it rejects |
| Gmail.PartStep | gmail.py:19-32 | a part without a filename, or without an allowed extension, is skipped with no fetch; a fetch happens exactly for a kept part with no inline data and an attachment id, keyed by message and attachment id; an upload carries the part's filename and the profile's address |
| Gmail.IngestPart | gmail.py:19-41 | the loop body makes the fetch PartStep describes, raises when it does, and appends the object of its upload |
| Gmail.IngestParts | gmail.py:18-41 | the inner loop makes the fetches and uploads of the message's top-level parts in order, up to the first part that raises |
| Gmail.IngestMessage | gmail.py:15-16 | a listed id the get call cannot return raises; otherwise the parts of its payload (none when payload or parts is absent) are ingested |
| Gmail.IngestMessages | gmail.py:14-41 | the outer loop ingests the listed messages in order, stopping at the first that raises |
| Gmail.CheckAndDownloadAttachments | gmail.py:9-41 | the fetches, the completion and the bucket afterwards are those of Sync: a failed list call raises; otherwise the listed messages, then their parts, in order |
| Gmail.Performed | gmail.py:14-41 | the run of a sequence of steps up to and including the first that raises; the specification the loop methods are proved equal to, with PerformedCompleted stating when it completes |
| Gmail.MessageSteps | gmail.py:15-16 | the steps of one listed id: a raising get call, or the steps of its top-level parts; the specification IngestMessage is proved equal to |
| Gmail.AllSteps | gmail.py:14-16 | the steps of the listed ids in order; the specification IngestMessages is proved equal to |
| Gmail.Sync | gmail.py:9-41 | the effect of one call on a mailbox: a failed list call raises, otherwise the run of all listed messages' steps; the specification CheckAndDownloadAttachments is proved equal to, with SyncCompleted and CompletedSyncUploadsEveryEligible stating its meaning |
| Gmail.PerformedCompleted | gmail.py:14-41 | a run ends without an exception exactly when none of its steps raises |
| Gmail.SyncUploadsAreProper | gmail.py:19-39 | every upload has a non-empty filename with a case-sensitive allowed extension and is owned by the profile's address |
| Gmail.UppercaseExtensionSkipped | gmail.py:22-23 | a part named "A.CSV" is skipped without a fetch |
| Gmail.UploadCarriesOriginalBytes | gmail.py:24-25 | a kept part with inline data uploads the bytes that data encodes, with no attachment fetch, even when an attachment id is present |
| Gmail.InlineAndFetchedAgree | gmail.py:24-30 | inline data and the same data fetched as an attachment have the same effect |
| Gmail.PartlessMessageIsSkipped | gmail.py:16 | a message without payload or without parts contributes no step |
| Gmail.NestedPartsNeverVisited | gmail.py:16-18 | removing every nested part from every message leaves the run unchanged |
| Gmail.CompletedUploadsEligible | gmail.py:18-39 | parts that run without an exception upload every eligible part, in order, once per occurrence, with its filename and decoded bytes |
| Gmail.MissingHalts | gmail.py:15 | a listed id the get call does not return stops the run |
| Gmail.CompletedAllFetched | gmail.py:14-15 | a run completes only if the get call returned every listed id |
| Gmail.SyncCompleted | gmail.py:11-39 | a run completes exactly when the list call, every get call and every visited part succeed |
| Gmail.CompletedSyncUploadsEveryEligible | gmail.py:14-39 | a run that completes uploads every eligible top-level part of the listed messages, in listing order, with no de-duplication |
| App.CallbackDecision | app.py:101-129 | the callback accepts exactly when the token fetch succeeds, the credentials are present and valid, the userinfo call succeeds and returns a non-empty address; every rejection is 400 or 401 |
| App.TokenFetchFailureIs400 | app.py:101-106 | a failed token fetch is answered with 400 |
| App.InvalidCredentialsAre401 | app.py:108-111 | missing or invalid credentials are answered with 401 |
| App.UserinfoFailures | app.py:113-125 | a failed userinfo call is answered with 401, a missing or empty address with 400 |
| App.Server.OAuth2Callback | app.py:93-129 | a rejection returns its status and changes neither table nor session; an acceptance whose save fails ends in 500 with neither changed; an acceptance whose save succeeds upserts the credentials under the address, sets the session's address and redirects to the dashboard |
| App.DashboardView | app.py:133-139 | without a session address the dashboard redirects to the index; otherwise it shows that address and what the list call gives for that address's folder |
| App.Server.Dashboard | app.py:133-139 | the handler returns what DashboardView describes |
| App.SignedInDashboard | app.py:127-139 | after a sign-in the dashboard lists the folder of the address that signed in |
| App.UploadShownOnDashboard | app.py:128-138 | after a sign-in, a file uploaded for that address shows last on the dashboard, with the public URL of its object (for a list call that returns the whole folder; see "## Left out" on the 100-entry cap) |
| App.SweepCompleted | app.py:141-145 | the sweep completes exactly when every user's ingestion completes |
| App.Sweep | app.py:144-145 | the users' runs one after the other, stopping at the first that raises; the specification SweepUsers is proved equal to, with SweepCompleted and AbortedSweep stating its meaning |
| App.AbortedSweep | app.py:144-145 | when a user's ingestion raises, every earlier one completed and no later one happens |
| App.SweepUsers | app.py:144-145 | the loop runs the ingestion once per user in query order, stopping after the first that raises; the bucket gains that sweep's uploads |
| App.Server.Job | app.py:141-145 | a credential that cannot be loaded raises before any ingestion; otherwise the users are swept in query order |

## Left out

- Flask wiring, templates, the consent-URL construction and the redirect URLs (app.py:12-47) are web plumbing. A response is only its status, its target endpoint, or the address and files a page shows.
- The commented-out callback inside a string literal (app.py:50-91) is dead code and is not modelled.
- The APScheduler timer (app.py:147-149) is timing and concurrency. The model runs one `job` at a time.
- The OAuth flow, the `googleapiclient` discovery, token refresh, `Credentials.to_json` and `Credentials.from_authorized_user_info` are foreign library calls. Their outcomes are arguments, and a credential is the JSON text `to_json` gives.
- The Supabase client, the upload and list transport, the content type, and the temporary file the ingestion writes and removes are I/O. The bucket is the log of objects written.
- `datetime.utcnow()` is the clock argument. Readings before year 1000 are not modelled, because the timestamp then has a shorter year.
- `UserToken.query.all()` has no ORDER BY. The model takes query order to be insertion order.
- The log line `job` writes at its start is not modelled.
- Base64Url.Decode: accepts only whole quanta of alphabet characters, where only the last quantum may end in one or two pads ("xx==" or "xxx="). Python's `urlsafe_b64decode` reads text by a more lenient rule: it drops every character outside the alphabet ("QUJD\n" decodes); it ignores every pad that does not complete a quantum, which is any pad in the first or second position and a single pad in the third position followed by data ("QUJD====" and "=QUJD" decode to the bytes of "ABC", "QU=QU" to the bytes of "QUQU"); it stops at the first pad that completes a quantum, ignoring what follows ("QQ==Q" and "QQ==QUJD" decode); and it raises only when the text ends inside a quantum. The model raises on such text, so it fails on some inputs where Python succeeds.
- A message is modelled by its payload alone. A part is assumed always to have a `body`, as the Gmail API always sends one. A missing `body` would raise `KeyError` in the source.
- Storage.Bucket.Upload: never raises. The upload at storage.py:16 is a network call that can fail, and nothing between it and the job catches the failure, so in the source a failed upload ends the run and the sweep. The model has no such outcome. Two uploads with the same path both stay in the log, while the real bucket may refuse the second.
- Gmail.CheckAndDownloadAttachments: reads each call's answer from a `Mailbox`, so each call gives the same answer every time it is made. The profile call is made once per uploaded part (gmail.py:38), and the get and attachment calls may be repeated. The model cannot express a later call failing or answering differently after an earlier one succeeded.
- Storage.FolderEntries: the list call at storage.py:21 passes no options, so the service's defaults apply. It returns at most 100 entries, sorted by name, plus entries for sub-folders. `FolderEntries` returns every object directly in the folder, in upload order, with no cap. Object names begin with the upload timestamp, so once a folder holds 100 objects the real dashboard shows the 100 oldest and a new upload is not listed. Storage.UploadIsListedUnderItsPath and App.UploadShownOnDashboard therefore hold for the real app only while the folder holds fewer than 100 objects. Even then, the new file comes last only when its name sorts after the others, as a later timestamp does.
- Storage.UploadIsListedUnderItsPath: proved for a list call that returns the whole folder in upload order; it does not cover the 100-entry cap or the name order of the real list call (see the Storage.FolderEntries line).
- App.UploadShownOnDashboard: the same limit as Storage.UploadIsListedUnderItsPath.
- App.Server.Job: assumed to run inside an application context. The scheduler calls `job` on a background thread (app.py:147-149) without the `app.app_context()` that app.py:18 and app.py:152 open. Flask-SQLAlchemy documents that `UserToken.query` (models.py:27) then raises, so every sweep would end in `get_all_user_tokens` before any ingestion. The model assumes the query succeeds.
