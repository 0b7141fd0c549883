# AsaanForm core, modelled in Dafny

AsaanForm helps users fill in forms. A browser client lets them upload a blank
form and supporting documents, edit and preview the filled form, and download
it. A Python backend classifies a user's request with a language model and
turns an uploaded document into structured JSON through OCR. An offline
script cuts a parsed document into request-sized chunks, asks a model to list
its fields for each chunk, and merges the answers.

This project models the parts of that system whose behaviour can be stated
exactly, and proves what they promise:

- **Extraction chunking and merging** (`Chunking`, `Extraction`). The merge
  is the seen-set loop of `merge_extractions`. It is proved equal to an
  independent "first occurrence of each non-empty key" reference.
  `chunk_json_by_size` is modelled with its two cutting strategies, Python
  floor division, slice clamping, and the exceptions Python would raise. The
  JSON serialiser is a parameter.
- **Hash router and view dispatch** (`Router`, `App`, `Navbar`, `Effects`).
  The router state carries the current route, the URL fragment, whether the
  `hashchange` listener is installed, and how many `hashchange` events are
  queued.
- **Page state** (`EditForm`, `Chatbot`, `UploadForm`, `Download`,
  `Profile`). Each page is an immutable record with pure event handlers. A
  click returns the page's new state together with its effects outside the
  page: navigate, alert or logout.
- **Backend agents and file preparation** (`AgentState`, `IntentAgent`,
  `DocumentAgent`, `MainGraph`, `FileLoader`). The language model, OCR, the
  JSON parser, the page count of a PDF and the upload id are all parameters.

Shared definitions live in `Base` (option, result, Python exceptions,
flattening), `Text` (character classes, JavaScript `trim` and Python `strip`,
ASCII case mapping, `str.replace`, decimal rendering) and `Json`.

## Model

| member | source | states |
|---|---|---|
| Extraction.Merge | llm_call.py:231-261 | The merged form fields, instructions and special areas are the first occurrence of each non-empty key over all answers, in order. Keys are pairwise distinct and never empty. Every first occurrence is kept, and the merged fields carry exactly the input's non-empty field keys. |
| Extraction.MergeFromMatchesReference | llm_call.py:239-259 | The seen-set loop, run over the remaining answers from the reference state of the answers already walked, ends in the reference state of all of them. |
| Extraction.AddNewMatchesReference | llm_call.py:244-248 | One inner loop over a list extends the kept list and the seen set exactly as the reference does for the longer prefix. |
| Extraction.FirstOccurrencesProperties | llm_call.py:245-248 | The reference keeps no empty key and no key twice. It has exactly the input's non-empty keys and contains every first occurrence. |
| Extraction.FirstOccurrencesNonEmpty | llm_call.py:246 | A field with a missing or empty key never appears in the merge reference. |
| Extraction.FirstOccurrencesDistinct | llm_call.py:246-247 | No key is kept twice. |
| Extraction.FirstOccurrencesComplete | llm_call.py:246-248 | Every element that is the first with its non-empty key is kept. |
| Extraction.FirstOccurrencesKeys | llm_call.py:244-248 | The kept elements have exactly the set of non-empty keys of the input. |
| Extraction.FirstOccurrencesSnoc | llm_call.py:246-248 | Appending one element adds it to the reference iff its key is non-empty and unseen. The key set grows by that key. |
| Extraction.FirstWithKey | llm_call.py:246 | Every element with a non-empty key has an earlier-or-equal first occurrence with the same key. |
| Extraction.FirstIndices | llm_call.py:243-259 | The reference positions are exactly the first-occurrence positions, in increasing order. |
| Extraction.FirstOccurrences | llm_call.py:243-259 | The reference holds the elements at the first-occurrence positions, in input order. |
| Extraction.FirstOccurrencesOfDistinct | llm_call.py:243-259 | A list whose keys are non-empty and pairwise distinct is its own reference. |
| Extraction.MergeEmpty | llm_call.py:233-237 | Merging no answers gives three empty lists. |
| Extraction.MergeIdempotent | llm_call.py:233-261 | Merging the single merged answer returns it unchanged. |
| Chunking.ChunkJsonBySize | llm_call.py:38-87 | A document whose serialisation fits in `max_chars` is one chunk, the whole text. A zero `max_chars` on a non-empty text raises. A successful result that is not the single-chunk case is non-empty, or comes from the `texts` path. |
| Chunking.FallbackReassembles | llm_call.py:82-87 | On the fallback path the pieces concatenate to the serialised text. Each piece has 1 to `max_chars` characters, and all but the last are full. |
| Chunking.TextsArrayPath | llm_call.py:56-80 | A `texts` array is cut with at least five items per chunk, and each chunk string is the serialisation of the matching chunk object. |
| Chunking.TextsStringPath | llm_call.py:56-80 | A `texts` string is cut by character with at least five characters per chunk. Each chunk string is the serialisation of the matching chunk object, and the chunks' `texts` concatenate back to the string. |
| Chunking.EmptyTextsGiveNoChunks | llm_call.py:66-80 | An empty `texts` array in a document too large for one chunk gives an empty chunk list. |
| Chunking.ItemsPerChunk | llm_call.py:63-64 | The group size is at least 5. It is defined for every positive `max_chars`, and `max_chars == 0` raises `ZeroDivisionError`. |
| Chunking.ArrayChunksReassemble | llm_call.py:66-74 | The chunks' `texts` concatenate back to the original array in order. There are no chunks iff the array is empty. |
| Chunking.ArrayChunkSizes | llm_call.py:66-67 | Each chunk holds 1 to `k` items, and every chunk but the last holds exactly `k`. |
| Chunking.ArrayChunkInfo | llm_call.py:71 | Chunk `j` with `n` items carries the text "items j*k to j*k+n-1 of N". |
| Chunking.ArrayChunksSlices | llm_call.py:66-72 | Chunk `j` holds slice `j` of the array, and its info names that slice's start and size. |
| Chunking.ChunkObjectReadBack | llm_call.py:68-72 | The `texts` and `chunk_info` members of a chunk object read back as the items and info text put in. |
| Chunking.StringChunksReassemble | llm_call.py:66-74 | For a `texts` string, the chunks' `texts` concatenate back to the string. There are no chunks iff the string is empty. |
| Chunking.StringChunkSizes | llm_call.py:66-67 | Each string chunk holds 1 to `k` characters, and every chunk but the last holds exactly `k`. |
| Chunking.StringChunkInfo | llm_call.py:71 | String chunk `j` with `n` characters carries the text "items j*k to j*k+n-1 of N". |
| Chunking.StringChunksSlices | llm_call.py:66-72 | String chunk `j` holds slice `j` of the string, and its info names that slice's start and size. |
| Chunking.ChunkStringReadBack | llm_call.py:68-72 | The `texts` and `chunk_info` members of a string chunk object read back as the text and info put in. |
| Chunking.CharPiecesProperties | llm_call.py:84-85 | Fixed-width pieces concatenate to the rest of the string. Each has 1 to `m` characters, and all but the last have exactly `m`. |
| Chunking.SlicesProperties | llm_call.py:66-67 | The group slices cover the sequence in order. Slice `j` starts at `j*k`, and all but the last hold exactly `k` items. |
| Chunking.SlicesFlatten | llm_call.py:66-67 | The group slices concatenate to the sequence. |
| Chunking.SlicesOffsets | llm_call.py:66-67 | Slice `j` starts at `start + j*k` and holds 1 to `k` items. |
| Chunking.SlicesFull | llm_call.py:66-67 | Every slice but the last holds exactly `k` items. |
| Chunking.FloorDiv | llm_call.py:63-64 | Python `//` rounds toward negative infinity: `b*q <= a < b*q + b` for a positive divisor, mirrored for a negative one. |
| Chunking.SliceUpTo | llm_call.py:87 | Python `s[:m]` is a prefix of `s`. It is `min(m, len(s))` characters long for `m >= 0`; a negative `m` counts from the end, never below zero. |
| Chunking.MapSerialize | llm_call.py:73-74 | One chunk string per chunk object, each the serialisation of its object. |
| Router.RouteFor | frontend/frontend/src/context/RouterContext.jsx:7-8 | The route is the fragment when the fragment is non-empty, else `"home"`. It is never empty. |
| Router.Init | frontend/frontend/src/context/RouterContext.jsx:6-9 | The initial route is the fragment, or `"home"` when there is none. The listener is installed and nothing is queued. |
| Router.Navigate | frontend/frontend/src/context/RouterContext.jsx:20-23 | The route becomes exactly the argument, unvalidated. The fragment is written, and one `hashchange` is queued iff the fragment changed. |
| Router.FragmentAfterAssign | frontend/frontend/src/context/RouterContext.jsx:21 | Assigning the fragment drops one leading `#`. |
| Router.FragmentChanged | frontend/frontend/src/context/RouterContext.jsx:11-16 | A fragment change by other means leaves the route alone and queues an event iff the fragment differs. |
| Router.DeliverHashChange | frontend/frontend/src/context/RouterContext.jsx:12-15 | While subscribed, a delivered event sets the route to the fragment or `"home"`, never empty. Once torn down, the route is kept. |
| Router.Teardown | frontend/frontend/src/context/RouterContext.jsx:16-17 | The cleanup removes the listener and changes nothing else. |
| Router.EmptyRouteNeedsNavigate | frontend/frontend/src/context/RouterContext.jsx:8-22 | From a non-empty route, any event sequence that ends on an empty route contains `navigate("")`. |
| Router.InitialRouteNeverEmpty | frontend/frontend/src/context/RouterContext.jsx:6-23 | Starting from the initial state, only `navigate("")` can produce an empty route. |
| Router.TornDownIgnoresFragments | frontend/frontend/src/context/RouterContext.jsx:16-17 | After teardown, fragment changes and their events never move the route. |
| Router.NavigateThenDeliver | frontend/frontend/src/context/RouterContext.jsx:12-23 | `navigate(r)`'s own echoed `hashchange` leaves the route at `r` for a non-empty `r` without a leading `#`. For `navigate("")` it resets the route to `"home"` when a fragment was set. |
| Router.UseRouter | frontend/frontend/src/context/RouterContext.jsx:33-38 | Outside a provider the hook fails with its message. Inside one it returns the context. |
| App.PageFor | frontend/frontend/src/App.jsx:17-39 | Each known route name dispatches to the page registered under it. The page is `Home` iff the route is `"home"` or unknown. |
| App.DispatchRoundTrip | frontend/frontend/src/App.jsx:18-36 | Each of the nine pages is reached from its own route name, and every such name is known. |
| App.RouteNamesDistinct | frontend/frontend/src/App.jsx:18-36 | Distinct pages are registered under distinct names. |
| App.UnknownRouteShowsHome | frontend/frontend/src/App.jsx:37-46 | A route accepted by `navigate` but unknown is shown as `Home` inside the layout. |
| Effects.ApplyNavigate | frontend/frontend/src/context/RouterContext.jsx:20-23 | A navigation effect sets the route to its target and leaves the session and the alerts alone. |
| Navbar.Items | frontend/frontend/src/components/Navbar.jsx:18-74 | Brand, Home and About are always shown. Profile and Logout are shown iff authenticated, and Login iff not. |
| Navbar.AtMostOneHighlighted | frontend/frontend/src/components/Navbar.jsx:31-45 | At most one control is highlighted, and it is the Home or the About tab. |
| Navbar.Highlighted | frontend/frontend/src/components/Navbar.jsx:29-45 | A highlighted control is one whose click navigates to the route already shown. |
| Navbar.TabHighlightedIffCurrent | frontend/frontend/src/components/Navbar.jsx:29-45 | The Home or About tab is highlighted iff clicking it navigates to the current route, and both tabs are always shown. |
| Navbar.OnClick | frontend/frontend/src/components/Navbar.jsx:9-74 | Every control ends with a navigation. Only Logout logs out. |
| Navbar.LogoutGoesHome | frontend/frontend/src/components/Navbar.jsx:9-30 | Logout applies `logout` and lands on `"home"`. The brand does what the Home tab does, which goes home and leaves the session alone. |
| EditForm.Init | frontend/frontend/src/pages/EditForm.jsx:6-17 | The page starts in edit mode with a valid record of exactly the eight named keys, in order. |
| EditForm.InitialFormDataValid | frontend/frontend/src/pages/EditForm.jsx:6-15 | The initial keys are distinct and each has a value. |
| EditForm.Set | frontend/frontend/src/pages/EditForm.jsx:21-24 | The named field gets the value and every other field is unchanged. An existing key keeps the key order, and a new key is appended. Validity is kept. |
| EditForm.HandleChange | frontend/frontend/src/pages/EditForm.jsx:20-25 | The named field gets the value, every other field and the mode are unchanged, and an existing key keeps the key list. |
| EditForm.EditingKeepsKeys | frontend/frontend/src/pages/EditForm.jsx:20-25 | Editing any initial field keeps the eight keys and stores the value. |
| EditForm.TogglePreview | frontend/frontend/src/pages/EditForm.jsx:51 | The toggle flips the mode and leaves the data untouched. |
| EditForm.ToggleTwice | frontend/frontend/src/pages/EditForm.jsx:17-51 | Toggling twice restores the state. |
| EditForm.Controls | frontend/frontend/src/pages/EditForm.jsx:50-205 | Save is offered iff in edit mode. The toggle and continue buttons are always offered. |
| EditForm.OnClick | frontend/frontend/src/pages/EditForm.jsx:27-51 | No click changes the data. Save alerts "Form saved successfully!" and changes nothing else. Continue navigates to `"download"`. |
| EditForm.SpaceBeforeCapitalsRoundTrip | frontend/frontend/src/pages/EditForm.jsx:81 | Inserting a space before each capital loses nothing: dropping the spaces gives the key back. |
| EditForm.SpaceBeforeCapitals | frontend/frontend/src/pages/EditForm.jsx:81 | The spaced key is at least as long as the key, and every capital in it has a space right before it. |
| EditForm.FormatLabel | frontend/frontend/src/pages/EditForm.jsx:81 | The label is no longer than the spaced key and has no whitespace at either end. Every capital in it but a leading one follows a space. |
| EditForm.FormatLabelRoundTrip | frontend/frontend/src/pages/EditForm.jsx:81 | For a key with no whitespace at either end, dropping the inserted spaces from the label gives the key back. Trimming removes at most the space put before a leading capital. |
| EditForm.SpacedLast | frontend/frontend/src/pages/EditForm.jsx:81 | Inserting the spaces never changes the key's last character. |
| EditForm.TrimOneLeadingSpace | frontend/frontend/src/pages/EditForm.jsx:81 | When the only edge whitespace is one leading space, trimming drops just that space. |
| EditForm.TrimKeepsSpacing | frontend/frontend/src/pages/EditForm.jsx:81 | Trimming a spaced string keeps the space before every capital it does not cut off. |
| EditForm.LabelOfCapitalKey | frontend/frontend/src/pages/EditForm.jsx:81 | A key led by a capital loses only the space put in front of it: its label is the capital followed by the spaced rest. |
| EditForm.TrimmedSpacedRoundTrip | frontend/frontend/src/pages/EditForm.jsx:81 | For a key with no whitespace at either end, the trimmed spaced key reads back as the key. |
| EditForm.CapitalKeyReadBack | frontend/frontend/src/pages/EditForm.jsx:81 | A leading capital followed by the spaced rest reads back as the key. |
| EditForm.SpaceBeforeCapitalsAppend | frontend/frontend/src/pages/EditForm.jsx:81 | The insertion works piece by piece over a concatenation. |
| EditForm.SpacedNeverStartsWithCapital | frontend/frontend/src/pages/EditForm.jsx:81 | A spaced key never starts with a capital. |
| EditForm.NoCapitalsUnchanged | frontend/frontend/src/pages/EditForm.jsx:81 | A key without capitals gets no spaces. |
| EditForm.LabelOfLowercaseKey | frontend/frontend/src/pages/EditForm.jsx:81 | A key without capitals and without surrounding whitespace is its own label. |
| EditForm.LabelFromSpaced | frontend/frontend/src/pages/EditForm.jsx:81 | When the spaced key has no whitespace at either end, trimming keeps it whole. |
| EditForm.DateOfBirthSpaced | frontend/frontend/src/pages/EditForm.jsx:81 | `dateOfBirth` is spaced to `date Of Birth`. |
| EditForm.DateOfBirthLabel | frontend/frontend/src/pages/EditForm.jsx:81 | The preview label of `dateOfBirth` is `date Of Birth`. |
| EditForm.PreviewRows | frontend/frontend/src/pages/EditForm.jsx:77-88 | The preview has one row per key, in key order, pairing the label with the key's value. |
| Chatbot.Init | frontend/frontend/src/components/Chatbot.jsx:5-13 | The chat starts closed, with empty input and one bot greeting of id 1. |
| Chatbot.Open | frontend/frontend/src/components/Chatbot.jsx:41 | Opening sets only the open flag. |
| Chatbot.Close | frontend/frontend/src/components/Chatbot.jsx:56 | Closing clears only the open flag. |
| Chatbot.Send | frontend/frontend/src/components/Chatbot.jsx:15-35 | A blank (all-whitespace) input changes nothing. Otherwise one user message with id `len+1` and the untrimmed text is appended, the input is cleared, and a reply with id `len+2` is scheduled. |
| Chatbot.DeliverReply | frontend/frontend/src/components/Chatbot.jsx:27-34 | The earliest scheduled reply is appended to the list current at that time, with the id fixed at send time. Nothing else changes. |
| Chatbot.PositionsAreUnique | frontend/frontend/src/components/Chatbot.jsx:19-29 | Ids that number the messages by position are unique. |
| Chatbot.SendThenReplyKeepsNumbering | frontend/frontend/src/components/Chatbot.jsx:15-35 | A send answered before the next send keeps ids equal to positions and adds two messages. |
| Chatbot.OverlappingSendsDuplicateIds | frontend/frontend/src/components/Chatbot.jsx:19-29 | As written, two sends inside the reply delay leave two messages with id 3. |
| Chatbot.DeliverReplyFixed | frontend/frontend/src/components/Chatbot.jsx:27-34 | The corrected reply takes its id from the list it joins, so position numbering is kept. It appends exactly one message. |
| Chatbot.FixedRepliesKeepIdsUnique | frontend/frontend/src/components/Chatbot.jsx:15-56 | With the corrected reply, any interleaving of typing, sends, replies, opening and closing keeps ids equal to positions and unique. |
| UploadForm.Init | frontend/frontend/src/pages/UploadForm.jsx:6-7 | No files and no drag at the start. |
| UploadForm.DragOver | frontend/frontend/src/pages/UploadForm.jsx:10-13 | Drag-over sets the flag and keeps the files. |
| UploadForm.DragLeave | frontend/frontend/src/pages/UploadForm.jsx:15-17 | Drag-leave clears the flag and keeps the files. |
| UploadForm.Drop | frontend/frontend/src/pages/UploadForm.jsx:19-24 | A drop clears the flag and appends the dropped files after the existing ones. |
| UploadForm.FileSelect | frontend/frontend/src/pages/UploadForm.jsx:26-31 | No file list changes nothing. A list is appended after the existing files, and the flag is kept. |
| UploadForm.IconFor | frontend/frontend/src/pages/UploadForm.jsx:101 | The document icon is shown iff the MIME type contains "pdf". |
| UploadForm.Continue | frontend/frontend/src/pages/UploadForm.jsx:33-35 | Continue navigates to `"upload-documents"`. |
| UploadForm.ContinueShowsUploadDocuments | frontend/frontend/src/pages/UploadForm.jsx:33-121 | After continue, the route is `"upload-documents"` and the application shows the document-upload page. |
| UploadForm.RunAppendsFiles | frontend/frontend/src/pages/UploadForm.jsx:10-31 | After any events, the list is the old list followed by each event's files in order. Nothing is removed or reordered. |
| UploadForm.ContinueStaysShown | frontend/frontend/src/pages/UploadForm.jsx:89 | Once a file is chosen, the list and the continue button stay shown. |
| Download.Init | frontend/frontend/src/pages/Download.jsx:6-7 | The defaults are `pdf` and `medium`, both offered choices. |
| Download.Controls | frontend/frontend/src/pages/Download.jsx:46-137 | There is one button per format and per compression level, plus download and back. |
| Download.ExactlyOneHighlighted | frontend/frontend/src/pages/Download.jsx:50-80 | With valid settings, exactly one button of each group is highlighted. |
| Download.OnClick | frontend/frontend/src/pages/Download.jsx:10-137 | A format button sets only the format, and a compression button only the compression. Download alerts the message and changes nothing. Back navigates to `"profile"`. Validity is kept. |
| Download.ChoicesAreIndependent | frontend/frontend/src/pages/Download.jsx:49-76 | Choosing a format and a compression, in either order, gives exactly those two settings. |
| Download.DownloadMessage | frontend/frontend/src/pages/Download.jsx:11 | The alert starts with "Downloading filled form as " and ends with " compression". |
| Download.MessageNamesSettings | frontend/frontend/src/pages/Download.jsx:11 | The settings can be read back from the alert text. |
| Download.FormatReadBack | frontend/frontend/src/pages/Download.jsx:11 | Each format is recognised from its upper-case name. |
| Download.RestReadBack | frontend/frontend/src/pages/Download.jsx:11 | Format and compression are read back from the text after the prefix. |
| Profile.StatusIcon | frontend/frontend/src/pages/Profile.jsx:40-51 | There is no icon iff the status is not completed, processing or failed. |
| Profile.StatusColor | frontend/frontend/src/pages/Profile.jsx:53-64 | The gray default is used iff the status is unknown, so the function is total. |
| Profile.IconIffColored | frontend/frontend/src/pages/Profile.jsx:40-64 | An icon is shown exactly when the badge is not gray. |
| Profile.Capitalize | frontend/frontend/src/pages/Profile.jsx:143 | The badge has the status's length. Its first character is upper-cased and the rest is unchanged. |
| Profile.CapitalizeRoundTrip | frontend/frontend/src/pages/Profile.jsx:143 | A lower-case status is read back from its badge. |
| Profile.AvatarInitial | frontend/frontend/src/pages/Profile.jsx:72 | There is no initial without a user. An empty name gives the empty string; otherwise the initial is the upper-cased first character (a Unicode scalar, not a UTF-16 unit). |
| Profile.WithStatus | frontend/frontend/src/pages/Profile.jsx:88-94 | The filter keeps exactly the forms of the status: each such form as often as it is listed, and no other form. |
| Profile.CountsDisjoint | frontend/frontend/src/pages/Profile.jsx:82-96 | Counts under two different statuses add up to at most the total. |
| Profile.CountedIffListed | frontend/frontend/src/pages/Profile.jsx:88-94 | A form is counted under its own status iff it is in the list. |
| Profile.HeaderCounts | frontend/frontend/src/pages/Profile.jsx:9-96 | The header shows 4 forms: 2 completed and 1 processing. |
| Profile.OnFormClick | frontend/frontend/src/pages/Profile.jsx:121-123 | Clicking a form navigates to `"download"` iff it is completed. Otherwise nothing happens. |
| Profile.OnNewForm | frontend/frontend/src/pages/Profile.jsx:109 | New Form navigates to `"upload-form"`. |
| Profile.ClickableForms | frontend/frontend/src/pages/Profile.jsx:9-123 | Of the fixed forms, the first and third lead to the download page. |
| AgentState.Get | ai-backend/app/agents/document_agent.py:9 | `get` returns the stored value, or the default for a missing key. |
| AgentState.Apply | ai-backend/app/graph/main_graph.py:12-31 | A node's update covers the state's keys plus its own. Its values win, and every other value is kept. |
| AgentState.ApplyExtension | ai-backend/app/agents/document_agent.py:36-40 | Writing a superset of the state over it leaves exactly that superset. |
| IntentAgent.Normalize | ai-backend/app/agents/intent_agent.py:21 | The normalised reply is no longer than the reply, and it is empty iff the reply is all whitespace. |
| IntentAgent.Classify | ai-backend/app/agents/intent_agent.py:21-25 | The intent is always chat, document or form. It is the normalised reply when that is one of them, else `"chat"`. |
| IntentAgent.ClassifyFixesIntents | ai-backend/app/agents/intent_agent.py:21-25 | An intent written exactly is read as itself. |
| IntentAgent.ClassifyIdempotent | ai-backend/app/agents/intent_agent.py:21-25 | Classifying an intent again gives the same intent. |
| IntentAgent.LowerWordFixed | ai-backend/app/agents/intent_agent.py:21 | A non-empty lower-case word normalises to itself. |
| IntentAgent.PaddedCapitalised | ai-backend/app/agents/intent_agent.py:21 | "  Document\n" is normalised and classified as `document`. |
| IntentAgent.Run | ai-backend/app/agents/intent_agent.py:6-29 | The update holds only `intent`, a string among the three intents: the classification of the model's reply to the user input. |
| MainGraph.Route | ai-backend/app/graph/main_graph.py:7-10 | The edge leads to the document node iff the intent is `"document"`, else to the end. |
| MainGraph.Next | ai-backend/app/graph/main_graph.py:18-29 | Each edge moves strictly closer to the end, so every run terminates. |
| MainGraph.Execute | ai-backend/app/graph/main_graph.py:12-31 | A successful run visits at most as many nodes as the distance to the end, and never lists the end itself. |
| MainGraph.IntentState | ai-backend/app/graph/main_graph.py:7-27 | After the intent node, the state holds the classified intent, and the edge follows it. |
| MainGraph.IntentStep | ai-backend/app/graph/main_graph.py:18-27 | The intent node never fails and hands its merged state to the next node. |
| MainGraph.DocumentStep | ai-backend/app/graph/main_graph.py:29 | The document node ends the run with its own result, or with its failure. It keeps the intent. |
| MainGraph.InvokeVisits | ai-backend/app/graph/main_graph.py:18-29 | A run visits the intent node, then the document node iff the intent is `"document"`. The final state holds the intent, and a non-document run always succeeds. |
| MainGraph.FailureNeedsDocumentNode | ai-backend/app/graph/main_graph.py:7-29 | A run can only fail when the document node runs. |
| DocumentAgent.Run | ai-backend/app/agents/document_agent.py:8-40 | Missing or falsy `files` returns the state unchanged. Otherwise the run succeeds iff `files` can be indexed, keeps every input key, and adds or overwrites only `raw_text` and `extracted_json`. |
| DocumentAgent.RunWithFiles | ai-backend/app/agents/document_agent.py:14-40 | With a non-empty file list, only the first file goes to OCR. `raw_text` is its text, and `extracted_json` is the parsed reply or the invalid-JSON record. |
| DocumentAgent.FirstFile | ai-backend/app/agents/document_agent.py:14 | `files[0]` is the first element of a list, the first character of a string, and a `KeyError` on a dict. Everything else is a `TypeError`. |
| DocumentAgent.InvalidJson | ai-backend/app/agents/document_agent.py:33-34 | An unparseable reply is stored as `{error: "Invalid JSON returned", raw: reply}`. |
| DocumentAgent.Prompt | ai-backend/app/agents/document_agent.py:16-27 | The prompt is the fixed instructions around the OCR text. |
| DocumentAgent.PromptRoundTrip | ai-backend/app/agents/document_agent.py:16-27 | The OCR text is read back from the prompt. |
| DocumentAgent.RunThenApply | ai-backend/app/agents/document_agent.py:36-40 | Writing the node's result over the state gives the node's result. |
| DocumentAgent.RunIdempotent | ai-backend/app/agents/document_agent.py:8-40 | With OCR and model services that answer the same input the same way, running the node on its own output gives the same output. |
| FileLoader.Extension | ai-backend/app/services/file_loader.py:10 | The extension has no dot and ends the name, preceded by a dot when shorter. A name without a dot is its own extension. |
| FileLoader.ExtensionAfterDot | ai-backend/app/services/file_loader.py:10 | Whatever precedes the last dot, the extension after it is read back. |
| FileLoader.PosixJoin | ai-backend/app/services/file_loader.py:12 | An absolute second part replaces the first. Otherwise the result starts with the first part and ends with the second. |
| FileLoader.SavedPath | ai-backend/app/services/file_loader.py:9-17 | The saved path is `uploads/<id>.<ext>`. |
| FileLoader.UploadDirJoinable | ai-backend/app/services/file_loader.py:12 | The upload directory is non-empty and has no trailing separator, so the join puts one `/` before the file name. |
| FileLoader.SavedPathKeepsExtension | ai-backend/app/services/file_loader.py:10-12 | The saved file has the upload's extension. |
| FileLoader.Stem | ai-backend/app/services/file_loader.py:38 | A PDF path loses its last four characters. Any other path is kept. |
| FileLoader.IsPdfLastFour | ai-backend/app/services/file_loader.py:38 | A path is a PDF iff its last four characters, lower-cased, are `.pdf`. Nothing before them matters, and neither does their case. |
| FileLoader.LowerPdfSuffixIsPdf | ai-backend/app/services/file_loader.py:38 | Any path ending in `.pdf` is a PDF. |
| FileLoader.UpperPdfSuffixIsPdf | ai-backend/app/services/file_loader.py:38 | Any path ending in `.PDF` is a PDF. |
| FileLoader.PageImagePath | ai-backend/app/services/file_loader.py:27 | A path holding no lower-case `.pdf` is itself the name of every page. |
| FileLoader.PageImagePathLowerSuffix | ai-backend/app/services/file_loader.py:27-38 | A path whose only `.pdf` is its suffix is a PDF, and page `i` is named `<stem>_page<i>.png`, the corrected name. |
| FileLoader.UpperPdfSuffixAbsent | ai-backend/app/services/file_loader.py:27 | A dot-free stem followed by `.PDF` holds no `.pdf` to replace. |
| FileLoader.PageImagePathFixed | ai-backend/app/services/file_loader.py:27 | The corrected page name starts with the path's stem and ends in `.png`. |
| FileLoader.FixedNamesDistinct | ai-backend/app/services/file_loader.py:24-30 | Corrected page names differ from page to page. |
| FileLoader.FixedNameIsNotThePdf | ai-backend/app/services/file_loader.py:27-28 | A corrected page name never overwrites its PDF. |
| FileLoader.UpperCasePdfPagesOverwrite | ai-backend/app/services/file_loader.py:27-38 | As written, a path detected as a PDF that holds no lower-case `.pdf` gives every page the PDF's own path. |
| FileLoader.ScanPdfCollides | ai-backend/app/services/file_loader.py:24-38 | `scan.PDF` is a PDF whose pages 0 and 1 both get the name `scan.PDF`, while the corrected names differ. |
| FileLoader.SavedUpperPdfOverwrites | ai-backend/app/services/file_loader.py:9-38 | An upload named `*.PDF` saved under a dot-free id is a PDF, and every page name is the saved path itself. |
| FileLoader.PdfToImages | ai-backend/app/services/file_loader.py:20-31 | A document of `n` pages gives `n` names, page `i` named by the naming rule. |
| FileLoader.Expand | ai-backend/app/services/file_loader.py:37-41 | A PDF becomes the names of its pages, and any other path stays itself. |
| FileLoader.PrepareFiles | ai-backend/app/services/file_loader.py:34-43 | The loop's output is the path-by-path expansion. Its length is the number of non-PDF paths plus the total page count. |
| FileLoader.PreparedLength | ai-backend/app/services/file_loader.py:34-43 | There is one output per non-PDF path plus one per page of every PDF. |
| FileLoader.PreparedAppend | ai-backend/app/services/file_loader.py:37-41 | Expansion works path by path, so the output keeps the input order. |
| FileLoader.NoPdfUnchanged | ai-backend/app/services/file_loader.py:40-41 | A list without PDFs passes through unchanged. |
| FileLoader.ExpandFixedDistinct | ai-backend/app/services/file_loader.py:24-39 | With corrected naming, the pages of one PDF get distinct names, none equal to the PDF. |
| Text.Trim | frontend/frontend/src/components/Chatbot.jsx:16 | Trimming removes the longest whitespace prefix and suffix. The result is a contiguous middle part with no whitespace at either end, and it is empty iff the input is all whitespace. |
| Text.TrimUntouched | frontend/frontend/src/pages/EditForm.jsx:81 | A string with no whitespace at either end is left whole by trimming. |
| Text.ToAsciiLower | ai-backend/app/agents/intent_agent.py:21 | Lower-casing keeps the length and maps each character. |
| Text.ReplaceAbsent | ai-backend/app/services/file_loader.py:27 | A replace whose pattern does not occur leaves the string as it is. |
| Text.ReplaceAll | ai-backend/app/services/file_loader.py:27 | Replacing the pattern with text of the same length keeps the length. Replacing it with itself changes nothing. |
| Text.ReplaceAtEnd | ai-backend/app/services/file_loader.py:27 | When the pattern first occurs at the very end, exactly that occurrence is replaced. |
| Text.ParseNatToString | llm_call.py:71 | The decimal numbers in a chunk's info text parse back to the numbers. |
| Text.NatToStringInjective | llm_call.py:71 | Distinct numbers render differently. |
| Json.Lookup | llm_call.py:244-256 | `get` finds a value iff the key is present, and returns a member stored under that key. |
| Base.FlattenAppend | llm_call.py:84-87 | Concatenating a split sequence distributes over appending its parts. |

## Left out

- I/O is not modelled: file reading and writing, console output, the upload directory's creation, the byte copy of an upload, and `time.sleep`.
- The language model, OCR, `json.loads`, `json.dumps`, the PDF page count and the upload id are parameters of the model. Their behaviour is not visible in this system.
- Floating-point display is not modelled: the file-size `toFixed` on the upload page, and the coordinate printing of the extraction script.
- `setTimeout` timing and React's re-render and batching are not modelled. The deferred chat reply is an explicit separate step, and replies fire in the order they were scheduled.
- The authentication context is not part of this model. The session is an abstract flag plus user record, and `logout` is a parameter.
- The document-upload page is not part of this model. Only its route is.
- The `AgentState` type imported by the agents is not defined in the repository's schema module. The state is modelled as a string-keyed map of JSON values.
- The presentational pages (about, home, login, signup, layout) are not modelled. Neither are the single-node greeting graph, the web routes and the pydantic models.
- The reference-document list on the download page is not modelled. Its buttons have no handler.
- Text.ToAsciiLower: Python's `lower` maps all of Unicode, but only ASCII letters are mapped here. The same holds for `toUpperCase` in Text.ToAsciiUpper and Profile.Capitalize.
- FileLoader.SavedPath: its contract covers ids that do not start with `/`. A `uuid4` string never does.
- FileLoader.PosixJoin: does not model Windows path joining.
- Router.FragmentAfterAssign: does not model the percent-encoding the browser applies to characters that are not allowed in a fragment.
- Chunking.ChunkJsonBySize: the `texts` path is stated for an array or a string `texts`. For an object `texts`, only the outcome is modelled: an empty object gives no chunks, and slicing a non-empty one raises `TypeError` (`KeyError` on Python 3.12 and later, where slices are hashable). The model always raises `TypeError`.
- IntentAgent.Run: the prompt text around the user input is not modelled. The model's reply is a function of the user input alone.
- MainGraph.Execute: its contract bounds the visited nodes. The exact trace is stated by MainGraph.InvokeVisits.
- MainGraph.InvokeVisits: OCR and the language model are total functions here. In the source either call can raise, and the exception leaves `invoke`, so "a non-document run always succeeds" holds only when the model call returns.
- MainGraph.FailureNeedsDocumentNode: holds only when the intent node's model call returns. An exception from it would fail a run that never reaches the document node.
- MainGraph.IntentStep: "never fails" assumes the model call returns. A raised exception is not modelled.
- DocumentAgent.Run: assumes OCR and the model call return. An exception from either is not modelled; only the failures of reading `files` are.
- DocumentAgent.RunIdempotent: holds for services that answer the same input the same way. The source calls the model at temperature 0.3, so two real runs can give different `extracted_json`.
- Profile.AvatarInitial: upper-cases ASCII letters only. JavaScript's `toUpperCase` also maps `é` to `É`, and `ß` to the two letters `SS`. The initial is the name's first Unicode character. JavaScript's `charAt(0)` takes one UTF-16 code unit, so a name starting outside the Basic Multilingual Plane (an emoji, `𝒜`) gives a lone surrogate there. A user record always has a `name` string here; a missing `name`, which renders `undefined`, is not modelled.
- IntentAgent.Normalize: lower-cases ASCII letters only. Python's `lower` maps `İ` to two characters, so the bound `|r| <= |reply|` holds for the model, not for every Python reply.
- EditForm.Set: a new key is stated to go at the end of the key order. A JavaScript object lists array-index keys such as `"0"` first, in numeric order, so for those keys the order differs.
- Router.Navigate: after Router.Teardown the provider is unmounted and React ignores its state updates, so the real route stays put. The model still moves the route.

## Findings

| source | as written | input that shows it | evidently intended | confidence | as-written member | corrected member |
|---|---|---|---|---|---|---|
| ai-backend/app/services/file_loader.py:27,38 | PDF detection ignores case, but page names replace the case-sensitive `.pdf`. A path ending in `.PDF` is expanded, and every page image is saved under the PDF's own path, so each page overwrites the PDF and the previous page. | `prepare_files(["scan.PDF"])` for a two-page PDF gives `["scan.PDF", "scan.PDF"]` | Page `i` of `scan.PDF` is named `scan_page<i>.png` | high, not executed | FileLoader.UpperCasePdfPagesOverwrite, FileLoader.SavedUpperPdfOverwrites, FileLoader.ScanPdfCollides | FileLoader.PageImagePathFixed, FileLoader.ExpandFixedDistinct |
| frontend/frontend/src/components/Chatbot.jsx:19,29 | The deferred reply's id is taken from the message count at send time, but the reply is appended to the list current when the timer fires. Two sends inside one second give the second user message and the first reply the same id, which React uses as the list key. | type "a", send, type "b", send, then both replies arrive: ids 1, 2, 3, 3, 4 | Ids number the messages by position and stay unique | high, not executed | Chatbot.OverlappingSendsDuplicateIds | Chatbot.DeliverReplyFixed, Chatbot.FixedRepliesKeepIdsUnique |
