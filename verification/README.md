# Lost & Found 2.0: a Dafny model of the matching pipeline

This project models the core of the Lost & Found 2.0 application:

- the coordinator's `run_pipeline`: fingerprint the photo, embed the text, store the report, acknowledge a lost report, scan the stored lost reports when something is found, then rank, anonymise and notify the top three candidates;
- the helpers it relies on: `phash_hamming`, the match rule, `_safe_parse`, `insert_item` and `fetch_all_items`;
- the two `send_notification` dispatchers: three channels in agents.py, two in notify.py;
- the read-only views of the web page: the sidebar counts, the recent-items window, its search box, the date column, and the way the result page reads a notification status.

Everything the code consults outside itself is a parameter of the model, collected in `Pipeline.World`:
- the decoded image's fingerprint;
- the replies of the embed, matcher and privacy agents;
- `json.loads` and `ast.literal_eval`;
- cosine similarity;
- the Twilio outcomes;
- the clock.

A run returns three things: the grown store, the trace of its effects (agent requests, the insert, notifications with their per-channel status maps) and the response. Python exceptions become `Option`/`Result` values. The blanket `except` of `run_pipeline` becomes `PipelineError`.

Modules, in dependency order:

| module | file | contents |
|---|---|---|
| `Common` | common.dfy | `Option`, `Result`, `Min`, `Max` |
| `Text` | text.dfy | lower-casing, substring search, `strip` |
| `Values` | values.dfy | parsed Python values, truthiness, `dict.get`, JSON-serialisability |
| `Fingerprint` | fingerprint.dfy | hex parsing, XOR, pop count, `phash_hamming`, the match rule |
| `Dispatch` | dispatch.dfy | both `send_notification`s, the result page's status test |
| `ReplyParsing` | reply_parsing.dfy | `_safe_parse` and its bracket-fragment search |
| `Store` | store.dfy | the items table as an append-only sequence |
| `Pipeline` | pipeline.dfy | `run_pipeline`, split into the alert stage and the ranking stage |
| `PipelineProperties` | pipeline_properties.dfy | trace readers, reference definitions and whole-run properties of the alert stage |
| `CandidateProperties` | candidate_properties.dfy | reference definitions and whole-run properties of the ranking stage |
| `Listing` | listing.dfy | sidebar counts, recent window, search, date column |

Behaviours a reader might not expect, which the model keeps as the code has them:
- Fingerprints of different lengths are not rejected as malformed. `int(s, 16)` reads both as numbers, so the shorter one is in effect zero-padded (`Fingerprint.PaddingPreservesDistance`).
- A fingerprint that does not parse, or a similarity that cannot be computed, is not treated as a non-match. The exception ends the run with an error.
- A run that fails after the insert is not free of partial state. The stored record stays, together with any notifications already sent (`PipelineProperties.MalformedFingerprintAbortsAfterInsert`, `PipelineProperties.SingleInsert`).

## Model

| member | source | states |
|---|---|---|
| Text.Lower | app.py:317-319 | `str.lower()` keeps the length and lower-cases each character in place |
| Text.Strip | agents.py:257 | `strip()` returns a contiguous slice of the input that neither starts nor ends with whitespace, and it removes only whitespace (the characters `str.isspace` accepts) |
| Values.Lookup | agents.py:256 | `dict.get(key, default)` returns the default whenever the key is absent; otherwise it returns the value bound last to that key |
| Values.Truthy | agents.py:259 | the truth test of `if m.get("owner_contact")`: `None`, `False`, zero, and the empty string, list, dict and set are falsy, everything else truthy; stated by its definition, with no contract of its own |
| Values.Serializable | agents.py:131 | `json.dumps` of the embedding succeeds exactly when no set occurs in the value; stated by its definition, and `PipelineProperties.StopsBeforeInsert` states that a rejected embedding ends the run before the insert |
| Fingerprint.ParseHex | agents.py:100 | `int(s, 16)` succeeds exactly on non-empty strings of hex digits, and its value fits in four bits per digit |
| Fingerprint.Hamming | agents.py:99-100 | the distance is defined exactly when both fingerprints parse, and it never exceeds four times the longer length |
| Fingerprint.HammingIsDigitwise | agents.py:99-100 | for equal-length fingerprints, the XOR pop count equals the number of differing bits counted digit by digit (an independent reference definition) |
| Fingerprint.HammingSymmetric | agents.py:99-100 | the distance does not depend on argument order, including when one side is malformed |
| Fingerprint.HammingSelf | agents.py:99-100 | a well-formed fingerprint is at distance 0 from itself |
| Fingerprint.HexValueIgnoresCase | agents.py:100 | digits that differ only in case denote the same number |
| Fingerprint.PaddingPreservesDistance | agents.py:99-100 | a leading zero digit changes no distance, so fingerprints of unequal length are compared zero-padded |
| Fingerprint.IsMatch | agents.py:242 | the match rule: fewer than 20 differing bits, or a similarity above 0.6; stated by its definition, with `MatchMonotone` and `SameImageMatches` as its properties |
| Fingerprint.MatchMonotone | agents.py:242 | a smaller distance or a larger similarity never turns a match into a non-match |
| Fingerprint.SameImageMatches | agents.py:242 | an identical fingerprint always matches (0 < 20), whatever the similarity |
| Dispatch.Status | agents.py:43-76 | a delivered channel's status starts with the check mark and carries the SID; a failed one starts with the cross and carries the error; notify.py:25-38 builds the same SMS and WhatsApp texts |
| Dispatch.Requested | agents.py:35 | a channel is attempted exactly when its name is in the channel list |
| Dispatch.SendNotification | agents.py:31-79 | the result has exactly the requested channels as keys, and each value is that channel's own status |
| Dispatch.SendNotificationTwoChannel | notify.py:15-40 | the same, restricted to SMS and WhatsApp: a requested call is ignored |
| Dispatch.EntryDependsOnOwnOutcome | agents.py:35-77 | a channel's entry depends only on that channel's provider outcome; one failure alters no other entry |
| Dispatch.PartialFailureKeepsBoth | notify.py:18-38 | with the default channels, an SMS failure and a WhatsApp delivery both appear, marked cross and check |
| Dispatch.TwoChannelIsRestriction | notify.py:15-40 | the notify.py dispatcher equals the agents.py one with the call entry removed |
| Dispatch.NoChannelsNoEntries | agents.py:31-79 | an empty channel list attempts nothing and returns an empty map |
| Dispatch.ShownAsDelivered | app.py:293 | the page's test as written, `"success" in status.lower()`; stated by its definition, with `DeliveredShownAsFailed` and `FailureShownAsDelivered` showing where it goes wrong |
| Dispatch.IsDeliveredExact | app.py:293 | the corrected test (the status starts with the check mark) is true exactly for delivered outcomes |
| Dispatch.DeliveredShownAsFailed | app.py:293 | as written, the page's `"success" in status.lower()` is false for every delivered status whose SID has no letter u |
| Dispatch.FailureShownAsDelivered | app.py:293 | as written, a failure whose error text is "success" is shown as delivered |
| ReplyParsing.SpanFrom | agents.py:196 | the span search finds the leftmost opening bracket with a matching closer after it, paired with the last such closer (greedy `.*`); no opener before it has one |
| ReplyParsing.Fragment | agents.py:196 | the regex finds no fragment exactly when no position opens one; a fragment is a match span that starts with a bracket and ends with its closer |
| ReplyParsing.SafeParse | agents.py:189-191 | a text the strict parser accepts is returned as parsed |
| ReplyParsing.FirstSuccess | agents.py:189-205 | the reference returns the first successful attempt in order, or the fallback when all fail |
| ReplyParsing.SafeParseIsFirstSuccess | agents.py:189-205 | `_safe_parse` tries JSON and then literal parsing on the text, then both on the bracket fragment, and returns the first success, or `[]` |
| ReplyParsing.AllFailYieldsEmptyList | agents.py:203-205 | when every strategy fails, the result is the empty list |
| ReplyParsing.BracketedTextIsItsOwnFragment | agents.py:196-199 | a text that starts with a bracket and ends with its closer is its own fragment |
| ReplyParsing.FragmentSkipsPlainPrefix | agents.py:196 | prose without brackets before a bracketed body is skipped, and the fragment is the body |
| Store.MaxId | agents.py:110 | the largest id in use bounds every id, and some record carries it |
| Store.NextId | agents.py:110 | `AUTOINCREMENT` hands out an id above every id in use |
| Store.Insert | agents.py:123-135 | the store grows by one record at its end, carrying the draft's fields and the creation time, under an id no earlier record has |
| Store.InsertAllAppends | agents.py:123-154 | a sequence of inserts then a fetch returns the old records followed by one record per draft, in order, with unique ids |
| Pipeline.Send | agents.py:233 | each pipeline notification goes to the given contact with the given body, on all three channels, and each channel's status renders that notification's provider outcome on that channel |
| Pipeline.LostRecords | agents.py:236 | the comprehension over `fetch_all_items()` keeps at most every record; `LostRecordsMembers` states exactly which |
| Pipeline.LostRecordsMembers | agents.py:236 | the scan sees exactly the stored records whose kind lower-cases to "lost" |
| Pipeline.Scan | agents.py:237-248 | the scan emits only notifications, at most one per lost record |
| Pipeline.TopThree | agents.py:255 | `matches[:3]` yields at most three candidates: the list prefix for a list, a string's first three characters as one-character strings, and an error otherwise |
| Pipeline.HandleCandidate | agents.py:256-265 | a candidate's entry holds the candidate and the stripped privacy reply; a candidate with a truthy contact gets exactly one notification, to that contact, naming the new report's title and the reporter's contact, and its entry records that notification's status map (all three channels, each rendering its own provider outcome); a falsy contact gets no notification and an empty status |
| Pipeline.NotifyCandidates | agents.py:254-265 | every entry describes the candidate at its own position; the loop covers every candidate unless it fails, and emits only privacy requests and notifications |
| Pipeline.Alerts | agents.py:228-248 | the alert stage emits only notifications |
| Pipeline.Ranking | agents.py:251-267 | the ranking stage starts with the matcher request, then emits only privacy requests and notifications, and a success reports the given item id |
| Pipeline.RunPipeline | agents.py:207-270 | a run never alters or removes a stored record and adds at most one, which carries the report's kind, title, description and contact under a new id; the lemmas of `PipelineProperties` and `CandidateProperties` state the rest of its behaviour |
| PipelineProperties.ScanCompletes | agents.py:237-239 | the scan finishes exactly when every lost record's distance and similarity can be computed |
| PipelineProperties.ScanSendsReference | agents.py:237-248 | the scan's notifications are a prefix of the reference list (one per qualifying record, in store order), and all of it when the scan finishes |
| PipelineProperties.ScanMeetsReference | agents.py:235-248 | both statements above together |
| PipelineProperties.StopsBeforeInsert | agents.py:208-216 | a run that fails at decoding, embedding or serialisation leaves the store alone and returns an error |
| PipelineProperties.SingleInsert | agents.py:219-226 | a run stores a record exactly when it gets past decoding, embedding and serialisation; it stores one record, at the end of the store; otherwise it stores and notifies nothing |
| PipelineProperties.InsertPrecedesNotifications | agents.py:219-248 | every notification of a run comes after its insert |
| PipelineProperties.MatchedReturnsStoredId | agents.py:267 | a successful run returns the id of the record it stored, and that id is new to the store |
| PipelineProperties.AlertStage | agents.py:228-248 | the alert stage's notices are a prefix of the reference list, equal to it when the stage finishes, and it finishes exactly when the reference says it can |
| PipelineProperties.AlertsBeforeRanking | agents.py:228-251 | whole-run form: the matcher is asked exactly when the alert stage can finish, and the notices before it are the reference list |
| PipelineProperties.LostRunAcknowledgesOnce | agents.py:228-233 | a lost report always reaches the ranking stage, and before it the only notice is the acknowledgment, sent exactly when a contact was given |
| PipelineProperties.FoundRunScansLostRecords | agents.py:235-248 | a found report reaches ranking exactly when every stored lost record can be scored, and then notifies the owner of each qualifying record, in order |
| PipelineProperties.QualifyingRecordIsNoticed | agents.py:242-248 | every lost record that meets the match rule has its notice in the reference list |
| PipelineProperties.CloseFingerprintIsNotified | agents.py:242-248 | the owner of a stored lost record within 19 bits of the found item is notified, whatever the similarity's value, provided the similarity can be computed and the scan completes (the run reaches the matcher request) |
| PipelineProperties.MalformedFingerprintAbortsAfterInsert | agents.py:238 | a stored lost record with a malformed fingerprint makes a found run return an error; ranking is never reached and the new record stays stored |
| CandidateProperties.NotifyCandidatesMeetsReference | agents.py:254-265 | the loop's notifications are a prefix of the reference list (one per candidate with a truthy contact, to that contact, with the "Possible match" body, in ranking order), and all of it when the loop completes; likewise its privacy requests against each mapping candidate's `owner_contact` (default `''`); and the entries' non-empty statuses are the sent notifications' status maps, in order |
| CandidateProperties.RankingStage | agents.py:251-267 | once the matcher's reply slices, what follows the matcher request is a prefix of the reference notifications and privacy requests; a success parsed at most three candidates, returns one describing entry for each, did all of the reference, and its entries carry the sent statuses in order |
| CandidateProperties.TopThreeCandidates | agents.py:251-267 | whole-run form: a successful run returns one describing entry per ranked candidate (at most three, in the agent's order), and after the matcher request it asks about, notifies and records exactly as the reference says |
| PipelineProperties.StringRankingFails | agents.py:254-256 | a matcher reply that parses to a non-empty string fails at `m.get` on its first character, before any privacy request; the empty string ranks nothing |
| PipelineProperties.FoundWithNothingLost | agents.py:235-237 | with no lost record stored, a found report's scan sends nothing and finishes |
| PipelineProperties.NothingRanked | agents.py:251-255 | a matcher reply that parses to `[]` gives a success with no entries |
| PipelineProperties.FoundIntoEmptyStore | agents.py:219-267 | a found report into an empty store, with an empty ranking, is stored under id 1 and notifies nobody |
| PipelineProperties.GarbageEmbeddingStillPersisted | agents.py:215-226 | an embedding reply that no strategy parses is still stored, as the empty list |
| PipelineProperties.RunKeepsIdsUnique | agents.py:110 | a run keeps record ids unique |
| Listing.CountKind | app.py:97-98 | the count is zero exactly when no record has that kind, and it never exceeds the number of records |
| Listing.CountsPartition | app.py:96-98 | the lost and found counts add up to at most the number of records, and to exactly that number iff every kind is one the form offers |
| Listing.LostCountAgreesWithScan | app.py:97 | the exact-match sidebar count never exceeds the case-insensitive set the scan uses, and equals it on form-entered records |
| Listing.Reverse | app.py:306 | `[::-1]` puts element i at position n-1-i |
| Listing.Recent | app.py:306 | `items[-20:][::-1]` holds min(20, n) records, the newest first |
| Listing.InsertKeepsAscending | agents.py:110 | inserting keeps ids increasing along the store |
| Listing.RecentNewestFirst | app.py:306 | on an ascending store, the window lists ids in decreasing order, and every record left out is older than every record shown |
| Listing.Hit | app.py:317-319 | a record hits when the lower-cased term occurs in its lower-cased title, description or kind; stated by its definition, with `SearchFindsOwnKind` and `EmptyTermKeepsEverything` as its properties |
| Listing.KeepHits | app.py:315-320 | the comprehension keeps exactly the records that hit, each as often as it occurs, in their original order |
| Listing.Search | app.py:314-322 | an empty term leaves the window unchanged; otherwise the result keeps exactly the hits, each as often as it occurs, in order |
| Listing.EmptyTermKeepsEverything | app.py:314-322 | the empty term hits every record, so the emptiness test before filtering changes nothing |
| Listing.SearchFindsOwnKind | app.py:319 | searching for a record's kind, in any capitalisation, finds it |
| Listing.BeforeSpace | app.py:348 | `split(' ')[0]` is the longest prefix without a space |
| Listing.DatePrefix | app.py:348 | the date column shows a prefix without spaces that stops only at a space; it shows the whole string exactly when there is none |
| Listing.SqliteTimestampShowsDate | app.py:348 | a "date time" timestamp shows its date |
| Listing.IsoTimestampShownWhole | app.py:348 | as written, an ISO "dateTtime" timestamp, the form `insert_item` stores, is shown whole rather than as its date |
| Listing.DisplayDate | app.py:348 | the corrected column shows the longest prefix with neither a space nor a `T` |
| Listing.DisplayDateShowsDate | app.py:348 | the corrected column shows the date of both timestamp layouts |

## Left out

- The web front end (Streamlit widgets, forms, layout, session state) is left out. Only the computations named above are modelled.
- SQLite is modelled as an in-memory sequence of records. Connections, SQL text and disk I/O are left out. `fetch_all_items` is taken to return rows in insertion order.
- `json.dumps` followed by `json.loads` of a stored embedding is taken to return the same value. Only a value the encoder rejects (a set) is modelled, as the serialisation failure.
- Image decoding and `imagehash.phash` are one oracle result. The model treats the fingerprint as given and does not model the hash algorithm.
- The OpenAI/CAMEL agents are oracles indexed by role, and for the privacy agent by candidate position. A reply whose content is `None` is not modelled.
- `json.loads`, `ast.literal_eval` and `cosine_similarity` are oracles. The floating-point arithmetic of the cosine is left out, and so is the way its `zip` truncates vectors of unequal length. An exception from the cosine is the oracle's `None`.
- Similarities are `real`. `sim > 0.6` on a double is assumed to agree with the comparison against the real 0.6.
- Twilio is an oracle of one outcome per (notification number, channel). Phone-number formatting, the TwiML wrapper and the `print` logging are left out.
- The exact wording of exception messages is left out. Failures are a `Failure` datatype, not the `"Pipeline failed: …"` string.
- The result map's key order (Python dicts keep insertion order) is left out. The model returns a `map`.
- `get_text_embedding` and the notifier agent are never called on the pipeline path, so they are left out.
- Text.Lower: only ASCII letters are folded. Python's Unicode case mapping is wider.
- Fingerprint.ParseHex: the model accepts plain hex digits only. `int(s, 16)` also accepts a sign, a `0x` prefix, underscores and surrounding whitespace, which the model treats as malformed. `imagehash` never produces such strings.
- Values.Serializable: only sets are treated as rejected by `json.dumps`. Bytes, complex numbers and non-string keys are not modelled values.
- Pipeline.TopThree: tuples are modelled as lists. A dict reply, on which `matches[:3]` raises, is an error like any other non-sequence.
- Pipeline.Scan: `lost_item['owner_contact']` is modelled as a string, so a stored `NULL` contact is not modelled.

## Findings

| source | as written | input that shows it | evidently intended | confidence | as-written member | corrected member |
|---|---|---|---|---|---|---|
| app.py:293 | a channel counts as delivered when `"success" in status.lower()` | the status `✅ SMS sent (SID: SM0a1b)` built at agents.py:43 contains no "success", so it is shown as failed; the status `❌ SMS failed: success` is shown as delivered | delivered exactly when the status starts with ✅ | high, not executed | Dispatch.DeliveredShownAsFailed | Dispatch.IsDeliveredExact |
| app.py:348 | the date column cuts `created_at` at the first space | `insert_item` stores `datetime.utcnow().isoformat()` (agents.py:131), e.g. `2024-05-01T10:00:00`, which has no space, so the whole timestamp is shown | show the date part of the stored timestamp | medium, not executed | Listing.IsoTimestampShownWhole | Listing.DisplayDateShowsDate |
