# med_ai core in Dafny

This project models the deterministic core of a conversational triage
assistant. The assistant has three parts that this model covers:

- **The chat server's session state** (`backend/app.py`). A process-wide
  dictionary maps each session id to a record holding symptoms, patient
  information and a stage. A chat turn with an empty message is rejected.
  The first turn of a session parses the message as a comma-separated
  symptom list and moves the stage from "initial" to "diagnosis". Every
  later turn stores the message as `additional_info`. Every turn then
  shallow-merges the request's `patient_info` and starts the agent crew.
  `reset` drops one session.
- **The offline symptom pipeline** (`backend/scrap_script.py`). It parses
  and lower-cases a comma-separated line. It maps each phrase to the
  catalog entry with the best embedding similarity, keeping only scores
  above 0.6. It fetches the MedlinePlus page of every matched symptom and
  skips the ones that fail. It then writes a summary report and a
  treatment-plan report, each with a fixed header and a fixed footer.
- **The crew's scraper tool** (`backend/tools.py`). It builds the same page
  URL from a base URL read from the environment. It returns the page text,
  or an error string when the status is not 200.

Files:

- `wrappers.dfy` — `Option` and `Result`.
- `text.dfy` — the Python string behaviour the core uses. This covers the
  whitespace set of `str.isspace`, which is also what `\s` matches, plus
  `lower`, `strip`, `split`, `join`, the comma-list comprehension and `str`
  of an integer.
- `scraping.dfy` — slug normalisation and page-text assembly, which both
  Python files share.
- `tools.dfy` — the scraper tool.
- `scrap_script.dfy` — the embedding cache, the matcher, the fetch loop,
  the reports and `process_symptoms`.
- `app.dfy` — the class `ConversationState`, with methods `Chat` and
  `Reset`. Their new state is specified by the functions `ChatStep` and
  `ResetStep`, and lemmas are proved about those functions.

Remote services are parameters:

- The embedding call is `embed: string -> E`, with `E` an abstract vector
  type.
- Cosine similarity is `cos: (E, E) -> real`.
- An HTTP request is `get: string -> HttpResult`. The result is either no
  response or a status with the element texts of the page.
- The two generation calls are functions from the fetched texts and the
  matched names to raw text.
- The crew kickoff is `kickoff: (symptoms, patient_info) -> CrewResult`. It
  returns either the reply or the message of the exception it raised.

The embedding cache file is a value `Option<Cache<E>>` that the operations
take and return.

Notes on the source's behaviour:

- The server does not lower-case the symptoms it stores. Only the offline
  script lower-cases.
- The chat turn does not run the matcher. The crew's research step uses
  the scraper tool.
- On a non-200 status the tool returns an error string rather than
  failing. Only the script's `fetch_page_text` raises.
- `max()` over an empty loaded cache raises. The model reports this as
  `MatchError.EmptyCatalog` and `Outcome.MatchRaised`.

## Model

| member | source | states |
|---|---|---|
| Text.TrimLeftFacts | backend/app.py:55 | left trimming removes exactly a whitespace prefix; what is left is empty or starts with a non-space |
| Text.TrimRightFacts | backend/app.py:55 | right trimming removes exactly a whitespace suffix; what is left is empty or ends with a non-space |
| Text.Strip | backend/app.py:55 | `strip()` gives a string no longer than its input that neither starts nor ends with whitespace |
| Text.StripIsInfix | backend/app.py:55 | `strip()` returns a contiguous slice of the input, and everything cut off on either side is whitespace |
| Text.StripOfStripped | backend/app.py:55 | `strip()` leaves an already stripped string unchanged |
| Text.StripIdempotent | backend/app.py:55 | stripping twice is the same as stripping once |
| Text.StripEmptyIff | backend/app.py:59-60 | a message is empty after `strip()` exactly when every character is whitespace |
| Text.Join | backend/tools.py:29 | joining no parts gives the empty string, one part gives that part, and more parts start with the first part followed by the separator |
| Text.Split | backend/app.py:76 | `split(",")` gives at least one piece, no piece contains the separator, and joining the pieces with it gives the input back |
| Text.SplitJoin | backend/app.py:76 | splitting a join of separator-free pieces gives back exactly those pieces |
| Text.StrippedItems | backend/app.py:76 | the filtered comprehension keeps at most one item per piece, and every item is non-empty and stripped |
| Text.StrippedItemsOne | backend/app.py:76 | one piece gives its stripped form when that is not empty, and nothing otherwise |
| Text.StrippedItemsAppend | backend/app.py:76 | the items of two runs of pieces are those of the first followed by those of the second, so input order and repetitions are kept |
| Text.CommaItems | backend/app.py:76 | every item is non-empty and stripped, and a message without a comma gives its stripped self as the only item, or nothing when it is all whitespace |
| Text.StrippedItemsSound | backend/app.py:76 | every kept item is the stripped form of some comma-separated piece |
| Text.StrippedItemsComplete | backend/app.py:76 | every piece that is not all whitespace reaches the result, stripped |
| Text.StrippedItemsOfClean | backend/app.py:76 | pieces that are already non-empty and stripped pass through unchanged, in order |
| Text.CommaItemsRoundTrip | backend/app.py:76 | a clean comma-free list written out with commas parses back to the same list, in order |
| Text.LowerChar | backend/scrap_script.py:127 | lower-casing one character sends each ASCII capital to the lower-case letter at the same alphabet position, fixes every other character, and keeps whether it is whitespace |
| Text.Lower | backend/scrap_script.py:136 | `lower()` keeps the length and lower-cases position by position |
| Text.LowerResult | backend/scrap_script.py:136 | `lower()` leaves no ASCII capital and creates no whitespace |
| Text.LowerOfLowered | backend/scrap_script.py:136 | `lower()` of a string without capitals is the identity |
| Text.RemoveSpace | backend/scrap_script.py:136 | `re.sub(r"\s+", "", s)` leaves no whitespace, is no longer than its input, keeps every non-space character and adds none |
| Text.RemoveSpaceChar | backend/scrap_script.py:136 | one whitespace character is removed and any other character is kept |
| Text.RemoveSpaceAppend | backend/scrap_script.py:136 | whitespace removal distributes over concatenation, so the kept characters stay in order with their repetitions; with RemoveSpaceChar this fixes the result for every string |
| Text.RemoveSpaceOfSpaceFree | backend/scrap_script.py:136 | removing whitespace from a whitespace-free string changes nothing |
| Text.RemoveSpaceKeepsNoUpper | backend/scrap_script.py:136 | removing whitespace introduces no capitals |
| Text.LowerRemoveSpaceCommute | backend/tools.py:23 | lower-casing then removing whitespace equals removing whitespace then lower-casing |
| Text.NatToString | backend/tools.py:26 | `str()` of a status is a non-empty digit string with no leading zero; the only string starting with '0' is "0", for zero |
| Text.NatToStringRoundTrip | backend/tools.py:26 | reading the decimal string of a status back gives the status |
| Scraping.Normalize | backend/scrap_script.py:136 | a normalised page name has no whitespace and no capitals and is no longer than the name |
| Scraping.NormalizeChar | backend/scrap_script.py:136 | one character normalises to nothing when it is whitespace and to its lower-case form otherwise |
| Scraping.NormalizeAppend | backend/scrap_script.py:136 | normalisation distributes over concatenation; with NormalizeChar this gives the page name of every name: the lower-cased name with every whitespace character removed, in order |
| Scraping.Slug | backend/scrap_script.py:136 | a slug is the normalised name followed by ".html" |
| Scraping.NormalizeCommutes | backend/scrap_script.py:136 | the normal form is the lower-cased name with its whitespace removed, in either order |
| Scraping.NormalizeFixesCleanName | backend/scrap_script.py:136 | a name without whitespace or capitals, such as every catalog name, is its own page name |
| Scraping.NormalizeIdempotent | backend/scrap_script.py:136 | normalising an already normalised name changes nothing, so its slug is the same |
| Scraping.NonEmptyTexts | backend/tools.py:29 | the filtered element texts are all non-empty, all come from the page, and every non-empty element text is kept |
| Scraping.NonEmptyTextsOne | backend/tools.py:29 | one element text is kept exactly when it is not empty |
| Scraping.NonEmptyTextsAppend | backend/tools.py:29 | the kept texts of two runs of elements are those of the first followed by those of the second, so document order and repetitions are kept |
| Scraping.PageText | backend/tools.py:29 | the page text is empty exactly when every element text is empty |
| Scraping.PageTextLines | backend/tools.py:29 | when element texts hold no newline, the page text splits on "\n" back into exactly the non-empty element texts, in document order |
| Tools.ToolUrl | backend/tools.py:23 | the URL is the base, then the lower-cased whitespace-free name, then ".html" |
| Tools.ToolUrlIdempotent | backend/tools.py:23 | a name that is already normalised gives the same URL |
| Tools.SymptomScraperTool | backend/tools.py:9-29 | an unset base URL raises; a missing response raises; a non-200 status returns the "Error fetching {url}: {status}" string; status 200 returns the non-empty element texts joined by newlines |
| Tools.FetchErrorText | backend/tools.py:26 | the error string strictly extends "Error fetching " + url + ": " |
| Tools.FetchErrorTextReadsBack | backend/tools.py:25-26 | the error string starts with "Error fetching " + url + ": " and the rest is the status in decimal |
| Tools.ToolIgnoresNormalisedInput | backend/tools.py:23 | the tool gives the same result for a raw name and for its normal form |
| Tools.ToolAgreesWithScript | backend/tools.py:23-29 | with the MedlinePlus base, the tool asks for the same page as the script; it returns the script's text on success and the error string where the script raises on the status |
| ScrapScript.Names | backend/scrap_script.py:67 | the keys of the cache, one per entry, in iteration order |
| ScrapScript.UserSymptoms | backend/scrap_script.py:127 | the parsed phrases are the comma items of the input, each lower-cased, in input order |
| ScrapScript.UserSymptomsClean | backend/scrap_script.py:127 | every parsed phrase is non-empty, stripped, lower-case and comma-free |
| ScrapScript.UserSymptomsRoundTrip | backend/scrap_script.py:127 | a clean lower-case phrase list written out with commas parses back to itself |
| ScrapScript.FreshCache | backend/scrap_script.py:54 | a fresh cache holds the catalog names in catalog order, each with its own embedding |
| ScrapScript.GetOrCreateEmbeddings | backend/scrap_script.py:44-57 | an existing cache file is returned verbatim; otherwise the result has exactly the keys "headache", "cough", "gas", "fever" with their embeddings and is saved |
| ScrapScript.CacheReloadRoundTrip | backend/scrap_script.py:49-55 | building the cache and then loading it gives the same mapping without using the embedding service |
| ScrapScript.Similarities | backend/scrap_script.py:67 | there is one score per catalog entry, in cache order: the similarity of the phrase's vector to that entry's vector |
| ScrapScript.ArgMax | backend/scrap_script.py:68 | the selected position holds a maximal score and no earlier position holds an equal one, as Python's `max` does |
| ScrapScript.Contribution | backend/scrap_script.py:66-73 | a phrase's contribution, when there is one, is a catalog key, and there is none when no entry scores above 0.6 |
| ScrapScript.ContributionMeaning | backend/scrap_script.py:66-73 | a phrase contributes a name exactly when some catalog entry scores strictly above 0.6; the name is the first entry with the highest score |
| ScrapScript.MatchedNames | backend/scrap_script.py:64-73 | the list the loop builds has at most one name per phrase, and every name is a catalog key |
| ScrapScript.MatchedNamesSound | backend/scrap_script.py:64-73 | every matched name is the contribution of some phrase |
| ScrapScript.MatchedNamesComplete | backend/scrap_script.py:64-73 | every phrase's contribution is among the matched names |
| ScrapScript.Dedup | backend/scrap_script.py:74 | `list(set(...))` has no duplicates, the same elements, and is no longer |
| ScrapScript.MapToPredefinedSymptoms | backend/scrap_script.py:61-74 | the result has no duplicates, has exactly the contributed names, and is no longer than the phrase list; duplicates and below-threshold phrases are dropped without error; it raises only on an empty cache with a non-empty phrase list; it saves the cache file like `get_or_create_embeddings` |
| ScrapScript.FetchPageText | backend/scrap_script.py:22-31 | a missing response or a non-200 status is a failure; status 200 gives the page text of the MedlinePlus URL built from the slug |
| ScrapScript.FetchedTexts | backend/scrap_script.py:133-140 | the fetch loop collects at most one text per symptom, and nothing for no symptoms |
| ScrapScript.FetchedTextsAppend | backend/scrap_script.py:133-140 | the texts collected for two lists in a row are the texts of each, in order |
| ScrapScript.FetchedTextsSkip | backend/scrap_script.py:139-140 | a symptom whose fetch fails adds no text |
| ScrapScript.FailedFetchSkipsOnlyThatSymptom | backend/scrap_script.py:134-140 | a failed fetch removes only that symptom's text; the texts before and after it are all kept, in order |
| ScrapScript.FetchedTextsCount | backend/scrap_script.py:133-140 | there are at most as many texts as matched symptoms, and exactly as many when every fetch succeeds |
| ScrapScript.FetchedTextsSound | backend/scrap_script.py:133-140 | every collected text is the successful page text of one of the matched symptoms |
| ScrapScript.Report | backend/scrap_script.py:152-158 | a report starts with its header and is as long as header, generated text and footer together |
| ScrapScript.ReportBodyRecoverable | backend/scrap_script.py:152-158 | a report is its header, the generated text, then its footer, and the generated text can be recovered by removing the header and footer |
| ScrapScript.ProcessSymptoms | backend/scrap_script.py:126-158 | it raises exactly when the cache is empty and the phrases are not; it stops without reports when nothing matched or nothing was fetched; otherwise both reports are header, stripped generated text, footer, built from the texts of the successful fetches in order |
| App.SessionKey | backend/app.py:56 | a missing session id is "default" |
| App.MessageText | backend/app.py:55 | a missing message is the empty string, a present one is stripped, and the result neither starts nor ends with whitespace |
| App.RequestInfo | backend/app.py:57 | a missing `patient_info` is the empty object, a present one is used as given |
| App.StageName | backend/app.py:69-78 | the record's stage is spelt "initial" or "diagnosis", one name per stage |
| App.Merge | backend/app.py:84 | the shallow `update` merge: keys in the request take the request's values, every other existing key keeps its value, and no other key appears |
| App.ParseMessage | backend/app.py:75-81 | after parsing a message the stage is "diagnosis" |
| App.Advance | backend/app.py:65-84 | after any turn that reaches line 84 the session's stage is "diagnosis" |
| App.FirstTurnRecordsSymptoms | backend/app.py:65-84 | a new session's record is the message's comma items (not lower-cased), the request's patient information as given, and stage "diagnosis" |
| App.HeadacheFeverItems | backend/app.py:76 | "headache, fever" parses to ["headache", "fever"] |
| App.HeadacheFeverExample | backend/app.py:65-84 | a first turn "headache, fever" records both symptoms and moves the stage to "diagnosis" |
| App.InitialTurnParses | backend/app.py:75-84 | a record still at "initial" is parsed as a symptom list and merged |
| App.FollowUpTurn | backend/app.py:79-84 | a follow-up turn keeps the symptoms; "additional_info" is the message unless the request supplies that key, which wins; other keys follow the shallow merge |
| App.ChatStep | backend/app.py:53-135 | an empty message gives 400 "Empty message" and changes nothing; otherwise the session's record becomes `Advance` of its old record (or of none), the message and the request's patient information, and no other record changes; a success replies with the crew's output, the session id and stage "diagnosis", and logs exactly that turn; a 500 carries the crew's exception message; a log line is written exactly on success |
| App.KickoffFailureKeepsChanges | backend/app.py:72-135 | when the kickoff raises, the response is 500 with the exception's message, the session changes made before the kickoff persist, and nothing is logged |
| App.ChatStepKeepsAllDiagnosis | backend/app.py:75-78 | if every stored session is at "diagnosis" before a turn, every stored session is at "diagnosis" after it |
| App.SecondTurnKeepsSymptoms | backend/app.py:65-84 | after a first turn, a second turn on the same session does not re-parse its text and leaves the symptom list unchanged |
| App.ResetStep | backend/app.py:143-144 | reset removes exactly the given key, keeps every other record unchanged, and changes nothing when the key is absent |
| App.ConversationState.constructor | backend/app.py:15 | the server starts with no sessions and an empty log |
| App.ConversationState.Chat | backend/app.py:53-135 | the method updates the map in place as the source does, ends in the state and response of `ChatStep`, appends the log line on success only, and keeps every session at "diagnosis" between requests |
| App.ConversationState.Reset | backend/app.py:140-146 | the method removes the session as `ResetStep` does, leaves the log alone, and always answers "Session reset" with the defaulted id |

## Left out

- The Flask plumbing is not modelled: routes, `jsonify`, CORS, `/health` and `app.run`. Requests arrive already decoded, with a string message, a string session id and an object `patient_info`, each possibly absent. Other bodies are left out, and Python handles them in different ways:
  - A non-object body, or a `message` that is null or not a string, makes the chat route answer 500 before any session changes.
  - A `session_id` of JSON null, or a number or boolean, is used by Python as a dictionary key, and the turn answers 200 under it. `SessionKey` cannot express such a key: it maps only an absent id to "default". Equal numbers share one key across types: `true`, `1` and `1.0` name the same session, and so do `false`, `0` and `0.0`. An array or object id cannot be a dictionary key, so the turn answers 500 before any session changes.
  - On a follow-up turn, `dict.update` takes any argument that is not an object and iterates over it. Such a `patient_info` fails, after the session was changed, and the turn answers 500. There are two exceptions. An empty string gives no items. A list whose every item is a two-element sequence with a hashable first element gives one key-value pair per item. An example is `["ab"]`, which sets key "a" to "b". In both cases the turn answers 200.
  - On a first turn, a non-object `patient_info` is stored as the record's information. The merge then always fails, since only a dictionary has `update`, and the turn answers 500 after the session was created.
  - The reset route fails unhandled on a non-object body or on an array or object id. A null, number or boolean id is looked up and reported as given.
- Latency and timestamps come from the clock and are not modelled. The success response and the log lines are modelled without them.
- Log file writes are modelled only as an in-memory sequence of entries. A failing write is not modelled; after the state changes it would give a 500.
- The crew's agents, task construction and prompt templates (`backend/agents.py`, `backend/tasks.py`) are one oracle, `kickoff`. A failure while building the tasks counts as the kickoff raising.
- Remote embedding and generation failures are not modelled. They make the offline script crash, and the model treats those calls as total functions.
- The generation prompts of `summarize_combined` and `generate_treatment_plan` are not modelled. This includes the `"\n\n"` and `", "` joins inside them. The generator is an oracle over the fetched texts and the matched names, and only the final `strip()` is modelled.
- Floating point is not modelled. Scores are reals, so NaN from a zero vector, rounding in `np.dot`/`np.linalg.norm`, and the binary value of `0.6` are out of scope.
- MapToPredefinedSymptoms: its contract does not fix the order of the result, because `list(set(...))` has no specified order. The body keeps first occurrences, and later steps use whatever order it produced.
- Lower-casing is modelled for ASCII letters only. Python's Unicode case mapping of other letters is not modelled.
- BeautifulSoup's `get_text(strip=True)` is part of the HTTP oracle. The model receives element texts already extracted.
- Cache: a loaded cache is a sequence of entries, so it could repeat a name. Python's dictionary cannot, because `np.load` gives back the dictionary that was saved. Only fresh caches, which have distinct names, and verbatim reloads of them occur in Python. The matcher's contract does not rely on distinct names.
- The `.npy` file format is not modelled. The cache file is a value that is read and written whole.
- `print` output, the script's `input()` entry point, `backend/config.py`, `frontend/script.js`, and the concurrent-access races on the session map and on the first cache build are not modelled. The model is single-threaded.
