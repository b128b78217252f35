# chatbot-wa-cure: a verified model of the message-processing core

This project is a Dafny model of the WhatsApp chatbot's message-processing core, with proofs about that model. The core covers:

- **Webhook.** The Meta subscription handshake. Each delivery walks the JSON payload and claims the message id once in the process-wide set of ids in flight. Only text messages from the one allowed contact are scheduled.
- **Background task.**
  - It routes the text by fixed-priority, case-insensitive keywords: image list, image search, document list, document search, or the agent.
  - On the agent route it asks the agent with the system turn, the stored history and the new message. It removes everything up to the first `</think>` from the answer and falls back to a fixed sentence.
  - It stores the question and the full reply, and sends the reply cut to 4000 characters plus `...`.
  - It always releases the message id.
- **Document and image handlers.**
  - Stopword-stripping query cleaners.
  - The first-match lookup over title and description.
  - The list of at most ten titles.
  - The exact order of the WhatsApp calls on every success and failure path, including the upload of a file without a media id and the save of the new id.
- **Ingestion.**
  - Slug and label derivation for the image collection.
  - The lexical match score and the lexical stage of the image search.
  - The two extension-to-content-type tables.
  - The skip-duplicate and skip-failed-upload loops that upload files and add rows. A run commits everything or rolls everything back.
- **Knowledge-base tools.** The two MCP servers render a decoded JSON file as numbered question/answer text, and map file errors to fixed replies.
- **Ollama glue.** The message-type-to-role map, the empty-knowledge-base prompt, and the mapping from each HTTP outcome to its reply.
- **Benchmark scoring.** Priority-ordered extraction of the answer text, multiple-choice scoring, code-fence extraction, and the per-model summary counters.

Stateful parts are classes whose methods are proved against specification functions:

- `Startup.AppState`: the ids in flight, the conversations and the system instruction;
- `WhatsApp.Client`: the trace of outbound calls;
- `Db.Database`: the document and image tables;
- `FolderIngest.Table` and `IngestImg.Collection`.

The collaborators' answers are inputs of each task (`WhatsApp.Outcomes`, `MessageHandler.AgentCall`, `Ollama.Outcome`, `KbFormat.Load`, the `upload` and `readable` functions of an ingestion run). These include whether the database answers, whether a send was delivered, the media id an upload returns, and what the agent returned or whether it raised. `str()` and `json.dumps` of a non-string value are parameters (`show`, `dump`).

Modules:

- `PyStr` gives Python's string operations over ASCII: `lower`, `upper`, `strip`, `split`, `find`, `os.path.splitext`, the stopword regex and `int()`.
- `PyJson` gives decoded JSON values with Python truthiness.
- `Seqs` holds small sequence lemmas.

## Model

| member | source | states |
|---|---|---|
| Startup.AppState.constructor | app/core/startup.py:37-39 | the application starts with no conversations, no ids in flight and the given system instruction |
| Startup.AppState.History | app/handlers/message_handler.py:98 | a sender's conversation is the stored one, or empty for a new sender |
| WebhookRoutes.WebhookVerify | app/api/webhook_routes.py:12-25 | 400 exactly when mode or token is missing or empty; 403 exactly when both are given but the mode is not `subscribe` or the token differs; for `subscribe` with the configured token, the parsed challenge exactly when `int()` reads it, and the server error (the raised `int(None)` or `ValueError`) exactly when the challenge is missing or unreadable |
| WebhookRoutes.HandshakeEchoesChallenge | app/api/webhook_routes.py:17-20 | the handshake with the right token returns the very number Meta sent, for every integer of at most 4300 digits |
| WebhookRoutes.HandshakeAnswer | app/api/webhook_routes.py:17-20 | with the right mode and token, the answer is the challenge `int()` reads, or the server error when it reads none |
| WebhookRoutes.HandshakeChallengePadding | app/api/webhook_routes.py:17-20 | a challenge padded with spaces, tabs or line breaks comes back as its number; `"\x1c5"` and `"5\x1f"` are server errors |
| WebhookRoutes.HandshakeChallengeText | app/api/webhook_routes.py:20 | a challenge written with an underscore between digit groups is echoed as the number without it, within the digit limit, and is a server error beyond it |
| WebhookRoutes.SenderOf | app/api/webhook_routes.py:53 | a sender is read exactly when `from` is missing (then it is empty) or a string, and it is already trimmed; any other `from` makes `.strip()` raise |
| WebhookRoutes.BodyOf | app/api/webhook_routes.py:58 | a body is read exactly when `text` is a dict whose `body` is missing or a string, and it is already trimmed; anything else raises |
| WebhookRoutes.AfterClaimOf | app/api/webhook_routes.py:52-74 | a message is dispatched only as text from a sender whose digits are `6285730784528`, with trimmed sender and body |
| WebhookRoutes.WalkMessage | app/api/webhook_routes.py:42-50 | `message["id"]` is claimed exactly when it is a non-empty string not in flight, whatever the type and sender; the message is dropped exactly when the id is missing, falsy or already in flight; a truthy id that is not a string is the failure; after a claim the checks of `AfterClaimOf` decide the rest |
| WebhookRoutes.FreshId | app/api/webhook_routes.py:43-46 | the message passes the id check exactly when its `id` is a non-empty string not already in flight |
| WebhookRoutes.ForUs | app/api/webhook_routes.py:36 | exactly the payloads whose `object` is `whatsapp_business_account` |
| WebhookRoutes.MessagesOf | app/api/webhook_routes.py:40 | `value.get('messages', [])`: the stored list, or an empty list when absent |
| WebhookRoutes.ClaimedMessageDropped | app/api/webhook_routes.py:46-48 | once its id is in flight, the same message is dropped |
| WebhookRoutes.Locate | app/api/webhook_routes.py:32-42 | a body that is not a JSON object fails; "not for us" for each cause: `object` is not `whatsapp_business_account`, `entry` is falsy, `entry[0]["changes"]` is falsy, or `messages` is falsy; a payload whose entries, changes and value are well formed reaches exactly its `messages[0]`, and every message reached is that one |
| WebhookRoutes.LocateNested | app/api/webhook_routes.py:36-42 | a payload built as `{"object": "whatsapp_business_account", "entry": [{"changes": [{"value": {"messages": [m, ...]}}]}]}` reaches `m` |
| WebhookRoutes.WalkPayload | app/api/webhook_routes.py:31-74 | an id is claimed exactly when the walk reaches a first message whose `id` is a non-empty string not in flight, and the claimed id is that one; a dispatched message passed the sender and trimming checks |
| WebhookRoutes.DeliveryOf | app/api/webhook_routes.py:46-79 | an id is claimed exactly when the walk claimed it; a task exactly for a dispatched message, carrying its sender, text and id; the error status exactly for a raised failure, with no task then |
| WebhookRoutes.Decide | app/api/webhook_routes.py:29-79 | an id is claimed exactly when the first message's `id` is a fresh non-empty string, and it is that id; a task is scheduled only for that id with an allowed, trimmed sender and text |
| WebhookRoutes.ClaimedWithoutTask | app/api/webhook_routes.py:46-57 | a fresh id whose message is not text, or comes from a sender other than the allowed contact, is still claimed: the answer is OK with that id claimed and no task, so the id stays in flight |
| WebhookRoutes.UnclaimedDropped | app/api/webhook_routes.py:43-48 | a first message whose id is missing, falsy or already in flight gets OK, with nothing claimed and no task |
| WebhookRoutes.RedeliveryDropped | app/api/webhook_routes.py:43-50 | a redelivery of a claimed id claims nothing, schedules nothing and answers OK |
| WebhookRoutes.WebhookProcess | app/api/webhook_routes.py:29-79 | the endpoint answers with the decision's status and task and adds exactly the claimed id to the set in flight |
| MessageHandler.LastText | app/handlers/message_handler.py:16-26 | the last message's text exactly when the result is a dict whose `messages` is a non-empty list and the last content is a string |
| MessageHandler.ExtractCleanResponse | app/handlers/message_handler.py:14-36 | a reply only when there is a last text, and it is non-empty and already trimmed |
| MessageHandler.CleanResponseCases | app/handlers/message_handler.py:14-36 | a reply exactly when the result is a dict with a non-empty `messages` list whose last content is a string with something left once the text up to the first `</think>` is dropped and the rest trimmed; the reply is that rest |
| MessageHandler.CleanReply | app/handlers/message_handler.py:30-36 | a reply is never empty and already trimmed; without `</think>` it is the trimmed content, or none when that is empty |
| MessageHandler.AfterThink | app/handlers/message_handler.py:30-32 | without `</think>` the content is kept whole; with it, at least the tag is dropped |
| MessageHandler.ExtractAfterThink | app/handlers/message_handler.py:30-32 | only the text up to the first `</think>` is dropped: the reply is the trimmed rest, later `</think>` tags included, or none when it is blank |
| MessageHandler.ThinkAfter | app/handlers/message_handler.py:30-32 | the cleaning of `pre + </think> + post` with no tag in `pre` is the trimmed `post` |
| MessageHandler.CleanAfterSplit | app/handlers/message_handler.py:31-32 | the reply is the trimmed second part of `split("</think>", 1)` |
| MessageHandler.ThinkSplit | app/handlers/message_handler.py:31 | the first split of `pre + </think> + post` on the tag, with no tag in `pre`, gives back `pre` and `post` |
| MessageHandler.ThinkBorderFree | app/handlers/message_handler.py:31 | joining a tag-free text with a proper prefix of `</think>` creates no tag |
| MessageHandler.AgentReply | app/handlers/message_handler.py:106-107 | the reply is never empty: the extracted answer, or the fallback sentence when there is none |
| MessageHandler.RouteOf | app/handlers/message_handler.py:66-95 | each route holds exactly when its keyword group occurs in the lower-cased text and no earlier group does; the agent is asked exactly when no image or document keyword occurs |
| MessageHandler.ListKeysImply | app/handlers/message_handler.py:66-95 | every list phrase contains a search keyword, so the list tests must precede the search tests |
| MessageHandler.ListImageKeysImply | app/handlers/message_handler.py:66-72 | a text with an image-list phrase contains `gambar` |
| MessageHandler.ListDocumentKeysImply | app/handlers/message_handler.py:86-92 | a text with a document-list phrase contains `dokumen` |
| MessageHandler.ImageBeatsDocument | app/handlers/message_handler.py:72-92 | `gambar file`, which holds the image keyword `gambar` and the document keyword `file`, goes to the image search |
| MessageHandler.GambarFileKeys | app/handlers/message_handler.py:66-72 | `gambar file` has an image keyword and no image-list phrase |
| MessageHandler.GambarFileNoList | app/handlers/message_handler.py:66 | `gambar file` contains none of the image-list phrases |
| MessageHandler.SmallTalkAsksAgent | app/handlers/message_handler.py:66-104 | the greeting `Halo`, which holds no keyword, goes to the agent |
| MessageHandler.Truncate | app/handlers/message_handler.py:117-118 | a reply of at most 4000 characters is sent unchanged; a longer one as its first 4000 characters followed by `...` |
| MessageHandler.AgentInput | app/handlers/message_handler.py:98-103 | the agent sees the system turn, then the stored history unchanged, then the user turn |
| MessageHandler.Exchange | app/handlers/message_handler.py:110-114 | the stored conversation is the old one followed by exactly the human turn with the incoming text and the AI turn with the reply, and still holds no system turn |
| MessageHandler.MediaEffect | app/handlers/message_handler.py:66-95 | a keyword branch changes only its own table: list branches and the document search leave the images, and all but the document search leave the documents |
| MessageHandler.ImageMedia | app/handlers/message_handler.py:72-83 | the image search leaves the document table alone |
| MessageHandler.DocumentMedia | app/handlers/message_handler.py:92-95 | the document search leaves the image table alone |
| MessageHandler.ProcessMessageBackground | app/handlers/message_handler.py:39-132 | on every path the id is released and no conversation gains a system turn. Keyword routes send what their handler sends and leave the conversations. A raising agent leaves them and sends only the apology. Otherwise the sender's conversation gains the question and the full reply, and the truncated reply is sent |
| MessageHandler.Converse | app/handlers/message_handler.py:97-132 | the agent branch: the conversation given to the agent, the history update and the single send, then the release of the id |
| MessageHandler.Answer | app/handlers/message_handler.py:110-120 | the sender's conversation becomes the old one plus the question and the full reply, other conversations and the ids in flight stay, and exactly one text, the truncated reply, is sent |
| MessageHandler.Release | app/handlers/message_handler.py:132 | the message id leaves the set in flight and the conversations stay |
| MessageHandler.ServeMedia | app/handlers/message_handler.py:66-95 | a keyword branch leaves the conversations and releases the id |
| MessageHandler.HandleMedia | app/handlers/message_handler.py:66-95 | the four keyword branches make exactly the calls and table changes of `MediaEffect` |
| MessageHandler.ListImagesBranch | app/handlers/message_handler.py:66-69 | the image list is sent, or the apology when the database fails; no table changes |
| MessageHandler.ImageBranch | app/handlers/message_handler.py:72-83 | the image request's calls and table |
| MessageHandler.ListDocumentsBranch | app/handlers/message_handler.py:86-89 | the document list is sent, or the apology when the database fails; no table changes |
| MessageHandler.ListReply | app/handlers/message_handler.py:66-69 | one text message to the sender: the apology when the database fails, the "none yet" text when there are no rows |
| MessageHandler.DocumentBranch | app/handlers/message_handler.py:92-95 | the document request's calls and table, then the apology when it raised |
| Db.SetMediaId | app/handlers/file_handler.py:126-137 | saving a media id changes exactly the rows with that id, only in their media id |
| Db.FirstMatch | app/handlers/file_handler.py:29-38 | `.first()` returns the earliest matching row, and no row only when none matches |
| Db.FirstTitles | app/handlers/file_handler.py:53 | at most ten titles, those of the first rows in order |
| Db.FindFirst | app/handlers/file_handler.py:20-47 | an empty query finds nothing without touching the database; a failing database is reported exactly when the query is non-empty; a hit is the first matching row, and a miss means no row matches |
| Db.Matches | app/handlers/file_handler.py:33-36 | `ILIKE '%q%'` on title or description: an empty query matches every row, and a match needs a column at least as long as the query |
| Db.ListText | app/handlers/file_handler.py:53-58 | no rows send the "none yet" text; otherwise the reply reads back as the header line followed by exactly one bulleted line per listed title |
| FileHandler.CleanQuery | app/handlers/file_handler.py:13-17 | the cleaned query is lower case and single-spaced; its `\w` runs are exactly the request's `\w` runs that are not document stopwords (compared case-insensitively), in order, lower-cased; its tokens are the request's tokens without the stopword runs, lower-cased, so punctuation such as `.` and `-` survives in place |
| FileHandler.CleanQueryKeepsPunctuation | app/handlers/file_handler.py:13-17 | `laporan.pdf` cleans to `laporan.` (only the stopword run goes, the dot stays) and `SOP-cuti` cleans to `sop-cuti` |
| FileHandler.CleanQueryKeepsDot | app/handlers/file_handler.py:13-17 | `laporan.pdf` cleans to `laporan.` |
| FileHandler.CleanQueryKeepsHyphen | app/handlers/file_handler.py:13-17 | `SOP-cuti` cleans to `sop-cuti` |
| FileHandler.CleanAround | app/handlers/file_handler.py:13-17 | a request made of a kept `\w` run, a visible separator and a second run cleans to the lower-cased text without the second run exactly when that run is a stopword |
| FileHandler.Normalize | app/handlers/file_handler.py:34-35 | the column text is lower-cased with every `_` read as a space, length unchanged |
| FileHandler.SearchText | app/handlers/file_handler.py:29 | the searched text is the cleaned query with `_` read as spaces: same length, lower case, no `_` |
| FileHandler.FindPdfByTitleOrDesc | app/handlers/file_handler.py:20-47 | a query that cleans to empty finds nothing; a hit is a stored document whose normalised title or description contains the normalised query; a miss means none does |
| Db.UploadTable | app/handlers/file_handler.py:126-137 | after an upload the table changes only when the upload succeeded and its id was saved, and then only by that media id on the uploaded row |
| FileHandler.StoredCallsShape | app/handlers/file_handler.py:74-99 | a stored document is sent once by its id; then the description (exactly when delivered and non-empty) and the outcome text, success or "Gagal mengirim" |
| FileHandler.UploadCallsShape | app/handlers/file_handler.py:101-157 | the upload uses the extension's content type; a failed upload sends only the upload-failed text; a successful one sends the document by the new id, then the description when delivered and non-empty, then the outcome text |
| FileHandler.UploadedCallsShape | app/handlers/file_handler.py:139-157 | after a successful upload the document is sent once by the new id, then the description exactly when delivered and non-empty, then the success text or the processing-error text |
| FileHandler.DeliverFoundShape | app/handlers/file_handler.py:70-157 | a found document starts with the found message and ends with a text; the table changes only for a document without a media id whose upload and save succeeded |
| FileHandler.PdfReplyCases | app/handlers/file_handler.py:63-157 | the request raises exactly when the database fails, sending nothing; a miss sends exactly one message; a hit starts with the found message; only a hit changes the table |
| FileHandler.HandleListDocuments | app/handlers/file_handler.py:50-60 | the list is sent, or a database error is raised with nothing sent |
| FileHandler.HandleUserPdfRequest | app/handlers/file_handler.py:63-157 | the live request makes exactly the calls and table change of the reply function for its lookup |
| FileHandler.Reply | app/handlers/file_handler.py:64-71 | the steps after the lookup make the reply's calls |
| FileHandler.Deliver | app/handlers/file_handler.py:70-157 | a found document is delivered by its stored id or by an upload |
| FileHandler.SendStored | app/handlers/file_handler.py:74-99 | the calls of a send by stored id |
| FileHandler.UploadAndSend | app/handlers/file_handler.py:101-157 | the calls and row update of an upload followed by a send |
| FileHandler.SaveMediaId | app/handlers/file_handler.py:126-137 | the new media id is stored exactly when the save succeeds |
| FileHandler.SendUploaded | app/handlers/file_handler.py:139-157 | the calls after a successful upload |
| ImageHandler.CleanImageQuery | app/handlers/image_handler.py:13-17 | the cleaned query is lower case and single-spaced; its `\w` runs are exactly the request's `\w` runs that are not image stopwords (compared case-insensitively), in order, lower-cased; its tokens are the request's tokens without the stopword runs, lower-cased, so punctuation survives in place |
| ImageHandler.Unhyphen | app/handlers/image_handler.py:29 | every `_` and `-` becomes a space and every other character is kept, position by position |
| ImageHandler.Normalize | app/handlers/image_handler.py:35-38 | the column text is lower-cased with `_` and `-` read as spaces, length unchanged |
| ImageHandler.SearchText | app/handlers/image_handler.py:29 | the searched text is the cleaned query with `_` and `-` read as spaces: same length, lower case, neither character left |
| ImageHandler.UploadMime | app/handlers/image_handler.py:104 | the upload is announced as `image/` followed by the stored extension, or `image/jpeg` when there is none |
| ImageHandler.FindImageByTitleOrDesc | app/handlers/image_handler.py:20-51 | a query that cleans to empty finds nothing; a hit is a stored image whose title or description, lower-cased with `_` and `-` as spaces, contains the query normalised the same way; a miss means none does |
| ImageHandler.StoredCallsShape | app/handlers/image_handler.py:80-94 | a stored image is sent once by its id; a failed send adds no text at all; a delivered one adds the description when non-empty and the success text |
| ImageHandler.UploadCallsShape | app/handlers/image_handler.py:98-140 | the upload is announced with `image/<extension>`, or `image/jpeg` without an extension; a failed upload sends only the upload-failed text; a successful one sends the image by the new id, then text only when it was delivered |
| ImageHandler.DeliverFoundShape | app/handlers/image_handler.py:76-140 | a found image starts with the found message followed by exactly one media call; the table changes only for an image without a media id whose upload and save succeeded |
| ImageHandler.ImageReplyCases | app/handlers/image_handler.py:67-144 | the request never raises; a database failure sends only the processing-error text and a miss only the not-found text, both leaving the table; a hit starts with the found message |
| ImageHandler.HandleListImages | app/handlers/image_handler.py:54-64 | the list is sent, or a database error is raised with nothing sent |
| ImageHandler.HandleUserImageRequest | app/handlers/image_handler.py:67-144 | the live request makes exactly the calls and table change of the reply function for its lookup |
| ImageHandler.Reply | app/handlers/image_handler.py:69-77 | the steps after the lookup make the reply's calls |
| ImageHandler.Deliver | app/handlers/image_handler.py:76-140 | a found image is delivered by its stored id or by an upload |
| ImageHandler.SendStored | app/handlers/image_handler.py:80-94 | the calls of a send by stored id |
| ImageHandler.UploadAndSend | app/handlers/image_handler.py:98-140 | the calls and row update of an upload followed by a send |
| MimeTypes.DocumentMime | app/handlers/file_handler.py:109-116 | the generic type exactly for extensions outside pdf, xlsx, xls, docx, doc |
| MimeTypes.ImageMime | app/utils/ingest_image.py:17-24 | the generic type exactly for extensions outside jpg, jpeg, png, gif, webp; `image/jpeg` exactly for jpg and jpeg |
| IngestFile.GetMimeType | app/utils/ingest_file.py:14-24 | the text after the last dot of the lower-cased name selects a known type exactly for pdf, xlsx, xls, docx, doc |
| IngestFile.SupportedHasMime | app/utils/ingest_file.py:41-44 | every file the run selects has a known content type |
| IngestFile.SuffixesDotted | app/utils/ingest_file.py:43 | each accepted suffix is a dot followed by one of the known extensions |
| IngestFile.DocumentEnv | app/utils/ingest_file.py:62-79 | a document run announces uploads with `get_mime_type` and describes rows as `Document: <name>` |
| IngestImage.GetMimeType | app/utils/ingest_image.py:14-24 | a known type exactly for jpg, jpeg, png, gif, webp after the last dot, and `image/jpeg` exactly for jpg and jpeg |
| IngestImage.SupportedHasMime | app/utils/ingest_image.py:39-42 | every file the run selects has a known content type |
| IngestImage.SuffixesDotted | app/utils/ingest_image.py:41 | each accepted suffix is a dot followed by one of the known extensions |
| IngestImage.ImageEnv | app/utils/ingest_image.py:59-75 | an image run announces uploads with `get_mime_type` and describes rows as `Image: <name>` |
| FolderIngest.Titles | app/utils/ingest_file.py:57 | the titles already in the table |
| FolderIngest.TitlesSnoc | app/utils/ingest_file.py:86 | adding a row adds its title |
| FolderIngest.Select | app/utils/ingest_file.py:41-44 | exactly the listed names with a supported suffix, and no more names than listed |
| FolderIngest.Supported | app/utils/ingest_file.py:43 | a name is kept exactly when its lower-case form ends with one of the suffixes |
| FolderIngest.UploadOk | app/utils/ingest_file.py:72 | `if not media_id` accepts exactly a present, non-empty id |
| FolderIngest.SelectConcat | app/utils/ingest_file.py:41-44 | selecting from two listings in a row selects from the first, then from the second |
| FolderIngest.SelectOrder | app/utils/ingest_file.py:41-44 | a name is kept exactly when supported, after what is kept before it and before what is kept after it, so listing order is kept |
| FolderIngest.ExtensionOfSuffix | app/utils/ingest_file.py:76 | a name ending in `.<e>` with no dot in `e` has extension `e` |
| FolderIngest.ExtensionOfListed | app/utils/ingest_file.py:43-76 | a selected file's extension is its accepted suffix without the dot |
| FolderIngest.ExtensionNoDot | app/utils/ingest_file.py:16 | a name without a dot uses the whole lower-cased name as its extension |
| FolderIngest.RowFor | app/utils/ingest_file.py:76-85 | an added row's title is a prefix of the name, its description is the prefix plus the name, its media id the upload's, and its extension has no dot |
| FolderIngest.Stage | app/utils/ingest_file.py:49-87 | one upload at most per file and one row at most per file |
| FolderIngest.StageRaises | app/utils/ingest_file.py:49-93 | a run raises exactly when some file cannot be read |
| FolderIngest.StageStep | app/utils/ingest_file.py:56-87 | a run is the first file's step followed by the run over the rest |
| FolderIngest.StageNotSeen | app/utils/ingest_file.py:56-74 | no added title was in the table before, and every added media id is non-empty |
| FolderIngest.StageDistinct | app/utils/ingest_file.py:56-60 | the titles added by one run are distinct |
| FolderIngest.StageFromRun | app/utils/ingest_file.py:76-86 | every added row is the row of one of the run's successfully uploaded files |
| FolderIngest.StageCovers | app/utils/ingest_file.py:56-86 | every file with a new title and a successful upload has its title added |
| FolderIngest.ExistsInTail | app/utils/ingest_file.py:49 | some file satisfies a test exactly when the first does or some later one does |
| FolderIngest.DistinctCons | app/utils/ingest_file.py:56-60 | a row with a title new to distinct rows keeps them distinct |
| FolderIngest.HasTitleCons | app/utils/ingest_file.py:86 | a title present stays present when a row is put in front |
| FolderIngest.ResumeCons | app/utils/ingest_file.py:86-89 | staging a row before the rest equals staging it and resuming |
| FolderIngest.Ingest | app/utils/ingest_file.py:27-95 | an unlistable folder is rolled back and an empty selection does nothing; otherwise the run's uploads are made, and either all its rows are committed or, when a file cannot be read, none are |
| FolderIngest.StageFiles | app/utils/ingest_file.py:49-87 | the loop makes the run's uploads and stages its rows |
| FolderIngest.Advance | app/utils/ingest_file.py:49-87 | one iteration keeps the loop's account of the run |
| FolderIngest.StageOne | app/utils/ingest_file.py:50-87 | one file: skipped when known, uploaded otherwise, with its row when the upload succeeded |
| FolderIngest.Table.constructor | app/utils/ingest_file.py:39 | the table starts with the given rows |
| IngestImg.SlugifyFilename | app/utils/ingest_img.py:16-19 | the slug has the stem's length, and each character is the stem's lower-cased character, with a space or underscore read as a hyphen; so it has no space, underscore or upper case |
| IngestImg.Label | app/utils/ingest_img.py:42 | the label has the stem's length, and each character is the stem's character, with an underscore or hyphen read as a space |
| IngestImg.SlugOfLabel | app/utils/ingest_img.py:16-42 | the slug is the lower-cased label with spaces turned into hyphens |
| IngestImg.SlugWithoutExtension | app/utils/ingest_img.py:16-19 | for a name without a dot the slug is the name lower-cased with spaces and underscores as hyphens |
| IngestImg.Basename | app/utils/ingest_img.py:119 | the base name has no slash and ends the path, and when it is not the whole path a slash comes right before it |
| IngestImg.JoinPath | app/utils/ingest_img.py:34 | `os.path.join`: the path ends with the name; an absolute name or an empty folder gives the name itself; otherwise the path starts with the folder and a `/` comes right before the name, adding at most one character |
| IngestImg.UrlFor | app/utils/ingest_img.py:119-121 | the URL is the base URL, `/`, and the file's base name, with no further `/` |
| IngestImg.Norm | app/utils/ingest_img.py:68-69 | `lower().strip()`: no longer than the input, no whitespace at either end |
| IngestImg.WordSet | app/utils/ingest_img.py:76-77 | `set(split())`: every word of `split()` is in the set, and every member is a non-empty word without whitespace |
| IngestImg.ShortInside | app/utils/ingest_img.py:91 | the penalty applies exactly when the query occurs in the label and `10 * len(q) < 3 * len(l)` |
| IngestImg.Ids | app/utils/ingest_img.py:46-47 | the ids in the collection |
| IngestImg.IdsSnoc | app/utils/ingest_img.py:51-55 | adding an entry adds its id |
| IngestImg.EntryOf | app/utils/ingest_img.py:42-55 | an entry's id is the slug and its caption the label |
| IngestImg.EntriesOf | app/utils/ingest_img.py:33-43 | one entry per selected file |
| IngestImg.EntriesOfAt | app/utils/ingest_img.py:33-43 | the entry of the i-th file is built from that file |
| IngestImg.Kept | app/utils/ingest_img.py:33-55 | the loop adds no more entries than files |
| IngestImg.KeptFresh | app/utils/ingest_img.py:45-55 | added ids are new to the collection and distinct from each other |
| IngestImg.AddedFresh | app/utils/ingest_img.py:33-55 | the files added by one run have new, distinct ids |
| IngestImg.KeptFrom | app/utils/ingest_img.py:51-55 | every added entry is one of the run's entries |
| IngestImg.AddedFromNames | app/utils/ingest_img.py:33-55 | every added entry comes from a listed file |
| IngestImg.KeptCovers | app/utils/ingest_img.py:36-55 | an openable entry with a new id not repeated earlier is added |
| IngestImg.AddedCovers | app/utils/ingest_img.py:36-55 | every readable file whose slug is new and not repeated earlier is added |
| IngestImg.AddedStep | app/utils/ingest_img.py:33-55 | a run is the first file's step followed by the run over the rest |
| IngestImg.DistinctIdsCons | app/utils/ingest_img.py:45-49 | an entry with an id new to distinct entries keeps them distinct |
| IngestImg.Collection.constructor | app/utils/ingest_img.py:11-14 | the collection starts with the given entries |
| IngestImg.IngestImages | app/utils/ingest_img.py:21-59 | a missing folder changes nothing; otherwise exactly the run's entries are added |
| IngestImg.AddImages | app/utils/ingest_img.py:33-57 | the loop appends exactly the run's entries |
| IngestImg.SubsetCard | app/utils/ingest_img.py:83-87 | a subset is no larger than its superset |
| IngestImg.Share | app/utils/ingest_img.py:84 | the matched share of the query words lies in [0, 1], is positive exactly when a word matches, and is 1 when all do |
| IngestImg.MatchScore | app/utils/ingest_img.py:63-94 | the score always lies in [0, 1.2] |
| IngestImg.MatchScoreFacts | app/utils/ingest_img.py:68-94 | equal texts score 1.0. A query without words that differs from the label scores 0.0. The score is positive exactly when the texts are equal or share a word. A query all of whose words are in the label, and which is not a short substring of it, scores 1.2, so it beats an exact match. A short substring scores at most 0.6 |
| IngestImg.WordScore | app/utils/ingest_img.py:83-94 | the word score lies in [0, 1.2], is positive exactly when a word is shared, is 1.2 for a full match without penalty, and at most 0.6 under the penalty |
| IngestImg.Candidates | app/utils/ingest_img.py:106-111 | candidates are the items with a positive score, with that score, in item order |
| IngestImg.CandidatesSnoc | app/utils/ingest_img.py:107-111 | one more item adds a candidate exactly when its score is positive |
| IngestImg.CandidatesCover | app/utils/ingest_img.py:107-111 | every item with a positive score is a candidate |
| IngestImg.Best | app/utils/ingest_img.py:114-118 | the first candidate after the stable descending sort: a highest score, with no earlier candidate as high |
| IngestImg.BestIsFirstBest | app/utils/ingest_img.py:106-118 | the chosen item has the highest score of all items and every earlier item scores lower |
| IngestImg.NoCandidates | app/utils/ingest_img.py:110-117 | without candidates every item scores zero or less |
| IngestImg.SearchLexical | app/utils/ingest_img.py:116-128 | a lexical hit is the URL of one of the stored items |
| IngestImg.LexicalHit | app/utils/ingest_img.py:116-128 | the lexical stage answers exactly when some item scores at least 0.5, with the URL of the first best item; the 0.7 and 0.5 branches give the same answer |
| IngestImg.CollectCandidates | app/utils/ingest_img.py:106-111 | the loop collects exactly the candidates |
| IngestImg.SearchImage | app/utils/ingest_img.py:96-128 | the lexical stage of the image search |
| KbFormat.QuestionOf | servers/qa_server.py:19-23 | a dict's question, the unknown-question text when the key is missing, or `Item <i>` for a non-dict |
| KbFormat.AnswerOf | servers/qa_server.py:19-24 | a dict's answer, the unknown-answer text when the key is missing, or the item's text for a non-dict |
| KbFormat.NumberedSnoc | servers/qa_server.py:18 | numbering one more item appends its text, numbered after the others |
| KbFormat.NumberedCons | servers/qa_server.py:18 | the first item is numbered first and the others follow in order |
| KbFormat.BlocksSnoc | servers/qa_server.py:18-27 | the block of item n + 1 follows the blocks of the first n |
| KbFormat.BlocksCons | servers/qa_server.py:18-27 | the first block is item 1's and the rest are numbered from 2 |
| KbFormat.KbText | servers/qa_server.py:15-31 | every rendering opens with the header, and an empty list gives the header alone |
| KbFormat.Render | servers/qa_server.py:15-31 | the accumulating loop builds the numbered text, or the header with the dump for a non-list |
| KbFormat.ItemTexts | servers/qa_server.py:19-24 | the question and answer of one item |
| QaServer.Reply | servers/qa_server.py:9-37 | a missing file, invalid JSON and other errors give their fixed texts; a decoded file gives the Indonesian rendering |
| QaServer.ErrorsMarked | servers/qa_server.py:32-37 | a reply starts with `Error: ` exactly when the file did not load |
| QaServer.GetKnowledgeBase | servers/qa_server.py:9-37 | the tool returns the reply and never raises |
| KbServer.Reply | server.py:15-43 | a missing file, invalid JSON and other errors give their fixed `Error: ...` texts; a decoded file gives the English rendering |
| KbServer.ErrorsMarked | server.py:38-43 | a reply starts with `Error: ` exactly when the file did not load |
| KbServer.GetKnowledgeBase | server.py:15-43 | the tool returns the reply and never raises |
| Ollama.PromptText | app/services/ollama.py:19-69 | an empty or blank knowledge base selects the refusal-only rules; otherwise the rules, a newline and the knowledge section |
| Ollama.SystemPrompt | app/services/ollama.py:19-69 | a blank knowledge base gives the fallback rules alone; any other knowledge base occurs verbatim in the system text |
| Ollama.KnowledgeSection | app/services/ollama.py:63-67 | the knowledge base sits between the opening and closing marker lines, unchanged |
| Ollama.KnowledgeCarried | app/services/ollama.py:19-69 | a non-blank knowledge base appears in the prompt, and all blank ones give the same prompt |
| Ollama.RoleOf | app/services/ollama.py:81-89 | an unknown message type passes through as the role |
| Ollama.RoleRoundTrip | app/services/ollama.py:81-86 | system, human and ai map to system, user and assistant, and the map can be inverted on them |
| Ollama.LcMessagesToOllama | app/services/ollama.py:78-90 | the conversion keeps length, order and content, with each message's role from its type |
| Ollama.Convert | app/services/ollama.py:80-89 | the content is copied; `human` becomes `user`, `ai` becomes `assistant`, and any other type is used as its own role |
| Ollama.PromptMessages | app/services/ollama.py:71-74 | two messages, sent as the system text under `system` and the question under `user` |
| Ollama.PayloadMessages | app/services/ollama.py:105-109 | the payload is the system prompt as `system`, then the user message as `user` |
| Ollama.ContentOf | app/services/ollama.py:129 | a reply object without a message gives the empty text |
| Ollama.Reply | app/services/ollama.py:124-143 | a 200 answer gives its trimmed content; non-200, timeout, connection failure and any other error give their fixed apologies |
| Ollama.RepliesDistinct | app/services/ollama.py:131-143 | a 200 answer comes back trimmed; two failures give the same apology only when they are of the same kind, and no apology is empty |
| PyJson.StrOf | tests/benchmarking.py:342-360 | a string value renders as itself |
| PyJson.Truthy | app/api/webhook_routes.py:38-46 | a JSON value is falsy exactly when it is `null`, `false`, zero, an empty string, an empty list or an empty object |
| PyJson.Get | app/api/webhook_routes.py:43 | `d.get(key)` finds a value exactly when the key is present, and it is the stored one |
| PyJson.GetOr | app/api/webhook_routes.py:37 | `d.get(key, default)` is the stored value when present and the default otherwise |
| Benchmarking.ExtractText | tests/benchmarking.py:317-360 | any `error` key gives `ERROR: ` and the error, whatever else is present; an answer that is not a string can only be one of the two choice values, which are returned as they are |
| Benchmarking.ExtractByPriority | tests/benchmarking.py:322-360 | without an error, the answer is the first present of choice content and choice text (both unconverted), then `response`, `output`, `text`, `raw` (each through `str()`), else the whole value through `str()` |
| Benchmarking.NullChoiceText | tests/benchmarking.py:336-338 | a `null` choice text is returned as `None` itself, not as the text `"None"` |
| Benchmarking.ChoiceAnswerFirst | tests/benchmarking.py:330-338 | a truthy message content wins over the choice's text |
| Benchmarking.SourcesInOrder | tests/benchmarking.py:330-354 | the sources are tried in their fixed order |
| Benchmarking.FirstPresent | tests/benchmarking.py:330-354 | the first present source, and none only when all are absent |
| Benchmarking.FirstOfSix | tests/benchmarking.py:330-354 | the first present of six sources, spelled out |
| Benchmarking.FirstPresentStep | tests/benchmarking.py:330-354 | a present source is taken, an absent one passes to the next |
| Benchmarking.AnswerLetter | tests/benchmarking.py:384 | a captured letter is some A to D occurring in the text from the start position on |
| Benchmarking.ScoreMmlu | tests/benchmarking.py:364-388 | a prediction scores only when it is non-empty and holds no `ERROR:` |
| Benchmarking.FirstLetter | tests/benchmarking.py:379 | a letter found is some A to D in the text |
| Benchmarking.SkipSpaceColon | tests/benchmarking.py:384 | the run of spaces and colons ends inside the text |
| Benchmarking.NoAnswerInUpper | tests/benchmarking.py:384 | the lower-case answer pattern never matches upper-cased text |
| Benchmarking.StripKeepsNoLower | tests/benchmarking.py:369 | trimming upper-cased text leaves no lower case |
| Benchmarking.ScoreMmluIsContainment | tests/benchmarking.py:364-388 | the prediction scores exactly when it is non-empty, has no `ERROR:` and its upper-cased, trimmed text contains the upper-cased, trimmed correct answer |
| Benchmarking.LetterInside | tests/benchmarking.py:379-380 | the letter pattern's letter occurs in the text |
| Benchmarking.SolutionCode | tests/benchmarking.py:413-425 | no code exactly for an empty answer or one with `ERROR:` |
| Benchmarking.Before | tests/benchmarking.py:420 | the text before the first fence contains no fence |
| Benchmarking.PythonFence | tests/benchmarking.py:417-421 | with a python fence, the code is the trimmed text between the first python fence and the next fence |
| Benchmarking.BareFence | tests/benchmarking.py:422-425 | with bare fences only, the code is the trimmed text between the first two, or the answer unchanged without a second fence |
| Benchmarking.Count | tests/benchmarking.py:650-668 | one more row adds one to the total and keeps consistent counters consistent |
| Benchmarking.Tally | tests/benchmarking.py:646-668 | per model, correct counts are at most their totals, the three totals sum to at most the total, errors are at most the total, and the total is at most the number of rows |
| Benchmarking.TallyTotal | tests/benchmarking.py:646-650 | the total is exactly the model's number of rows |
| Benchmarking.TallyAbsent | tests/benchmarking.py:640-644 | a model without rows has zero counters |
| Benchmarking.Models | tests/benchmarking.py:647 | every row's model is among the summary's models |
| Benchmarking.Summarize | tests/benchmarking.py:632-668 | the summary has exactly the models of the rows, each with its counted totals |
| PyStr.Strip | app/handlers/message_handler.py:32-34 | the trimmed text has no whitespace at either end, and is empty exactly for blank text; `StripCut` shows it is the original with only whitespace cut from both ends |
| PyStr.StripIdempotent | app/handlers/message_handler.py:32 | trimming twice is trimming once |
| PyStr.StripSlice | tests/benchmarking.py:369 | the trimmed text is a contiguous slice of the original, and all that is cut before and after it is whitespace |
| PyStr.StripCut | app/handlers/message_handler.py:32-34 | `strip()` removes only whitespace: the original is whitespace, then the stripped text, then whitespace |
| PyStr.CleanText | app/handlers/file_handler.py:13-17 | the cleaned text is lower case and single-spaced; its `\w` runs are exactly the input's `\w` runs that are not stopwords (compared case-insensitively), in order, lower-cased; and its tokens (`\w` runs and single other visible characters) are the input's tokens without the stopword runs, lower-cased, so every punctuation character is kept in its place |
| PyStr.RemoveWords | app/handlers/file_handler.py:15 | removal never makes the text start with a word character unless the input did; `RemoveWordsTokens` states what it keeps |
| PyStr.RemoveWordsTokens | app/handlers/file_handler.py:15 | `re.sub` with the `\b(...)\b` pattern deletes exactly the `\w` runs whose lower-case form is a stopword: the tokens of the result are the tokens of the input with those runs dropped, every other character copied in order |
| PyStr.KeepTokens | app/handlers/file_handler.py:14-15 | no stopword run is left among the kept tokens |
| PyStr.RemoveWordsSplit | app/handlers/file_handler.py:15 | removal works piece by piece on pieces that do not cut a `\w` run |
| PyStr.RemoveWordsChar | app/handlers/file_handler.py:15 | a single non-word character is copied |
| PyStr.RemoveWordsRun | app/handlers/file_handler.py:14-15 | a whole `\w` run is deleted exactly when its lower-case form is a stopword, and otherwise kept as it is |
| PyStr.RemoveWordsAround | app/handlers/file_handler.py:14-15 | two `\w` runs around one non-word separator: the separator always survives and each run survives exactly when it is not a stopword |
| PyStr.RemoveWordsNone | app/handlers/file_handler.py:15 | a text without a stopword run is left unchanged |
| PyStr.CleanTokens | app/handlers/file_handler.py:13-17 | the tokens of the whole cleaning pipeline are the input's tokens without stopword runs, lower-cased |
| PyStr.CleanTextNoStop | app/handlers/file_handler.py:13-17 | without a stopword run the cleaned text is the input's whitespace-separated words joined by single spaces, lower-cased, punctuation included |
| PyStr.CleanTextSingle | app/handlers/file_handler.py:16-17 | when removal leaves one piece without whitespace, the cleaned text is that piece lower-cased |
| PyStr.StripTokens | app/handlers/file_handler.py:17 | trimming keeps the tokens |
| PyStr.CollapseTokens | app/handlers/file_handler.py:16 | re-joining the words with single spaces keeps the tokens |
| PyStr.LowerTokens | app/handlers/file_handler.py:17 | the tokens of lower-cased text are the tokens lower-cased |
| PyStr.RemoveWordsRuns | app/handlers/file_handler.py:15-16 | removing stopwords keeps exactly the `\w` runs that are not stopwords, in order, case-insensitively |
| PyStr.Words | app/handlers/file_handler.py:16 | `split()` gives non-empty words without whitespace |
| PyStr.WordsSplit | app/handlers/file_handler.py:16 | the words of `a + b` are the words of `a` followed by those of `b` when the seam is not inside a word |
| PyStr.WordsOne | app/handlers/file_handler.py:16 | a non-empty run without whitespace is a single word |
| PyStr.WordsBlank | app/handlers/file_handler.py:16 | a blank text has no words |
| PyStr.WordsSpaceHead | app/handlers/file_handler.py:16 | leading whitespace is skipped |
| PyStr.CollapseSpaces | app/handlers/file_handler.py:16 | the collapsed text is single-spaced, and empty exactly for blank text |
| PyStr.CollapseRuns | app/handlers/file_handler.py:16 | collapsing whitespace keeps the word runs |
| PyStr.StripRuns | app/handlers/file_handler.py:17 | trimming keeps the word runs |
| PyStr.LowerRuns | app/handlers/file_handler.py:17 | the word runs of lower-cased text are the word runs lower-cased |
| PyStr.WordRunsSplit | app/handlers/file_handler.py:15 | cutting a text where no word continues across splits its word runs the same way |
| PyStr.JoinSingleSpaced | app/handlers/file_handler.py:16-17 | joining words with single spaces gives single-spaced text |
| PyStr.SplitOnce | app/handlers/message_handler.py:31 | `split(sep, 1)` gives the text up to the first separator and the rest |
| PyStr.SplitAllFirst | tests/benchmarking.py:418-425 | `split(sep)` is the whole text when the separator is absent; otherwise its first piece is the text before the first separator and the rest are the pieces of what follows it |
| PyStr.SplitAll | tests/benchmarking.py:418-425 | `split(sep)` gives at least one piece, none containing the separator |
| PyStr.TrimStart | app/handlers/message_handler.py:32 | `lstrip()`: the suffix left after exactly the leading whitespace |
| PyStr.TrimEnd | app/handlers/message_handler.py:32 | `rstrip()`: the prefix left before exactly the trailing whitespace |
| PyStr.JoinEnds | app/handlers/file_handler.py:16 | the joined text begins with the first piece and ends with the last |
| PyStr.Contains | app/handlers/message_handler.py:66 | `sub in s` needs `sub` no longer than `s` |
| PyStr.ContainsEnds | app/handlers/file_handler.py:34 | a prefix or suffix occurs, and the empty text occurs everywhere |
| PyStr.AffixChars | app/utils/ingest_file.py:43 | `startswith`/`endswith` compare the affix character by character with the front or the end |
| PyStr.Upper | tests/benchmarking.py:369-370 | `upper()` keeps the length, maps each character, and leaves no lower-case letter |
| PyStr.IntToString | app/api/webhook_routes.py:20 | `str(n)`: non-empty, a leading `-` exactly for negatives, digits otherwise, and no leading zero on a non-negative number |
| PyStr.SplitExt | app/utils/ingest_img.py:18 | `os.path.splitext` splits off a dot-led suffix without another dot, or nothing |
| PyStr.SplitExtDotted | app/utils/ingest_file.py:56 | `stem.ext` splits into the stem and `.ext` |
| PyStr.AfterLast | app/utils/ingest_file.py:16 | the text after the last dot has no dot, and the whole text when there is none |
| PyStr.KeepDigits | app/api/webhook_routes.py:54 | only digits are kept, and an all-digit text unchanged |
| PyStr.KeepDigitsChar | app/api/webhook_routes.py:54 | one character is kept exactly when it is a digit |
| PyStr.KeepDigitsConcat | app/api/webhook_routes.py:54 | the digits of a concatenation are the digits of each part in order; with `KeepDigitsChar` this fixes `re.sub(r'\D', '', s)` on every text |
| PyStr.ParseInt | app/api/webhook_routes.py:20 | `int()` reads nothing from blank text |
| PyStr.IntStrip | app/api/webhook_routes.py:20 | the text `int()` reads has none of the whitespace it skips (space, `\t` to `\r`) at either end |
| PyStr.IntStripPadded | app/api/webhook_routes.py:20 | `int()` reads exactly the text between the skipped whitespace around it |
| PyStr.ParseIntPadded | app/api/webhook_routes.py:20 | a number's decimal text padded with spaces, tabs or line breaks is read as that number |
| PyStr.ParseIntSeparators | app/api/webhook_routes.py:20 | a number next to an information separator (0x1C to 0x1F) is refused, although `str.strip()` would remove it |
| PyStr.StrayLead | app/api/webhook_routes.py:20 | a text starting with anything but skipped whitespace, a digit or a sign is refused |
| PyStr.StrayTrail | app/api/webhook_routes.py:20 | a text ending with anything but skipped whitespace or a digit is refused |
| PyStr.Signed | app/api/webhook_routes.py:20 | a number is read only from digit groups after at most one sign, and is negative only after `-` |
| PyStr.ParseDigits | app/api/webhook_routes.py:20 | a digit text is read only when it is digit groups, and gives a non-negative number |
| PyStr.ParseIntShow | app/api/webhook_routes.py:20 | `int()` reads back any integer's decimal text of at most 4300 digits |
| PyStr.ParseIntGrouped | app/api/webhook_routes.py:20 | an underscore between digit groups is ignored, and the text is read exactly when it has at most 4300 digits |
| PyStr.ParseIntTooLong | app/api/webhook_routes.py:20 | digit text beyond 4300 digits is refused |
| PyStr.ParseIntUnderscores | app/api/webhook_routes.py:20 | `1_000` reads as 1000, while a doubled, leading or trailing underscore is refused |
| PyStr.Lower | app/handlers/message_handler.py:66 | lower-casing keeps the length and leaves no upper case |
| PyStr.Find | app/handlers/message_handler.py:30 | the first occurrence, and -1 exactly when there is none |
| WhatsApp.Client.SendMessage | app/services/whatsapp_service.py:51 | a text send is recorded after the earlier calls |
| WhatsApp.Client.SendDocument | app/services/whatsapp_service.py:142 | a document send is recorded after the earlier calls |
| WhatsApp.Client.SendImage | app/services/whatsapp_service.py:111 | an image send is recorded after the earlier calls |
| WhatsApp.Client.UploadMedia | app/services/whatsapp_service.py:21 | an upload is recorded after the earlier calls |
| WhatsApp.UploadSucceeded | app/handlers/file_handler.py:121 | `if not media_id` treats exactly a missing or empty id as a failed upload |

## Left out

- Network, database sessions and files. HTTP requests, the WhatsApp Graph API, SQLAlchemy sessions (commit, rollback, close), temporary files, `os.listdir`, `open` and `Image.open().verify()` are not modelled. Their outcomes are inputs: a bool per send, the media id of an upload, whether the database answers, and whether a file can be read.
- Concurrency. Background tasks run one at a time. The lost history update when two tasks of one sender interleave is not modelled.
- Logging, printing, timing. `logger` calls, `print`, `time.perf_counter`, and the request temperature and options carry no behaviour the core depends on.
- Unicode. Lower-casing, `strip`, `split()`, `\b` and `\w` are modelled over ASCII only. Their whitespace is what `str.isspace` says for ASCII: space, `\t` to `\r`, and the separators 0x1C to 0x1F. Non-ASCII whitespace and letters are not modelled.
- SQL `ILIKE`. Matching is plain substring matching on text both sides have already lower-cased. An unescaped `%` or `_` in the user's query is not treated as a wildcard.
- MessageHandler.ImageBranch: the outer `except` in `process_message_background` for the image branch (app/handlers/message_handler.py:77-80) is not modelled, because `handle_user_image_request` catches every exception itself, so that handler cannot be reached.
- MessageHandler.ExtractCleanResponse: the agent result is modelled only through the parts the function reads: dict or not, `messages` present, list or not, and the last message's `content`. A falsy `messages` value that is not a list counts as "not a list", which gives the same `None`.
- Agent and LLM. The agent's `ainvoke`, the LLM providers and MCP are external; their answer is an input. The LangChain prompt templates are modelled as plain text: brace substitution inside the knowledge base is not modelled.
- IngestImg.MatchScore: uses exact rationals (`real`) where Python uses floats. For example, `10 * 0.3` is `3.0000000000000004` as a float, so the float program can differ at the 0.3 and 0.5 boundaries.
- The embedding fallback of `search_image` (app/utils/ingest_img.py:130-176) is left out: it works on float distances from a vector store. `SearchImage` returns `Fallback` where that stage would start.
- `search_knowledge_base` in server.py, `score_gsm8k_answer` (float tolerance), the subprocess run of `score_humaneval_solution`, and the averages and timing sums of `print_summary` are left out: floats, subprocesses and printing.
- PyJson.StrOf: `str()` of a non-string value and `json.dumps` are parameters (`show`, `dump`). Their exact text is not modelled.
- WebhookRoutes.WalkMessage: a truthy message id that is not a string is modelled as the error response. For lists and dicts this is what Python does (the `in` test raises). A number or boolean id would instead be added to the set.
- Db.Record: nullable text columns are `""` when NULL. For `description`, `media_id` and `file_extension` every read treats NULL and empty alike (a falsy test, `or "pdf"`, or a SQL `lower()` that matches nothing). For `title` this is not so: the f-strings at app/handlers/file_handler.py:57, 70, 78 and 139 and app/handlers/image_handler.py:61 and 76 render a NULL title as the text `None`, where the model renders the empty text. The search is unaffected, since a NULL title and an empty one both fail to contain a non-empty query.
- PyStr.ParseInt: only ASCII digits are read, and only the whitespace CPython's `int()` skips within ASCII (space and `\t` to `\r`, not 0x1C to 0x1F). CPython's `int()` also accepts other Unicode decimal digits and non-ASCII whitespace, which the model refuses. The 4300-digit limit is CPython's default `int_max_str_digits`; a deployment can change it.
- Benchmarking.ExtractText: the callers at tests/benchmarking.py:489, 519 and 550 are left out. They pass the answer to the scorers and store `text[:200]`, both written for a string. What a choice value of another type does there (`None`, a number or a dict makes the slice raise) is not modelled.
- The contracts of the handlers' pure reply functions (`StoredCalls`, `UploadCalls`, `UploadedCalls`, `DeliverFound`, `PdfReply`, `ImageReply`) are stated as separate lemmas (`...Shape`, `PdfReplyCases`, `ImageReplyCases`) rather than as `ensures` on the functions. The same holds for a few string helpers that many proofs unfold: `Join` (`JoinEnds`), `StartsWith` and `EndsWith` (`AffixChars`), and `FolderIngest.Extension` (`ExtensionOfSuffix`, `ExtensionOfListed`, `ExtensionNoDot`).
- WhatsApp client internals (app/services/whatsapp_service.py) are not part of this model. The client only records its calls, in order. Its refusal of empty text is not modelled, because the core never sends an empty text.
