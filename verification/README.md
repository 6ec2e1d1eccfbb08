# Insuria: a Dafny model of the claims ledger and the assessment workflow

This project models the parts of the Insuria insurance assistant (a React
single-page application) that hold state or transform data:

- the **claims ledger and document vault** (`ClaimsContext`). Two lists are
  only ever prepended to. They are loaded once from the browser's key-value
  store, with defaults, and written back whole on every change.
- the **damage-assessment workflow** (`Assessor`). Its three steps are
  `upload`, `scanning` and `results`. An image is analysed, the report is
  shown, and confirming the report files exactly one claim.
- the **language-model service wrapper** (`Groq`). It covers the chat
  fallbacks, the code-fence stripping before `JSON.parse`, and the error
  rethrow of the damage analysis.
- the **speech routing** (`Voice`). The provider's audio plays when the
  provider answers with a URL. Otherwise the browser synthesiser speaks in
  the mapped locale.
- the **advisor chat** (`Advisor`). It covers the append-only message
  history, the whitespace-only guard and the language selection.
- the **insurer marketplace** (`Marketplace`). A fixed table is sorted
  stably by price, by payout speed, or not at all.
- the **claims screen** (`ClaimsPage`). It covers the download file name and
  export text of a document, the status badge, the upload guard and the
  active-claim heading.

Three helper modules support these:

- `Wrappers` holds `Option`, `Result` and JavaScript truthiness.
- `Analysis` holds the damage report shape.
- `Text` holds the JavaScript string built-ins the code relies on:
  - `trim` and the `\s` class, over the ECMAScript whitespace set;
  - `toUpperCase`;
  - `split` and `join` on one character;
  - global literal `replace`;
  - `String(n)` on integers below 10^21 in magnitude, and decimal `parseInt`.

Everything outside the program is a parameter:

- the clock (`Date.now`), formatted dates and `Math.random`;
- the replies of the language model and of the speech provider;
- `JSON.parse` of the model's answer;
- whether the browser has a speech synthesiser;
- the data URL the file reader produces.

Each asynchronous handler is modelled as one atomic step.

## Model

| member | source | states |
|---|---|---|
| ClaimsContext.Mount | src/context/ClaimsContext.jsx:15-31 | Mounting loads, per key, the stored list when the key is present and the default otherwise: no claims, and the three seed documents. A store with only one of the keys loads that list and the other default. Both lists are then written back under their keys and every other key is untouched. Mounting fails exactly when a slot holds the other list's shape, which stands for stored text that cannot be loaded |
| ClaimsContext.MountEmptyStore | src/context/ClaimsContext.jsx:9-23 | A fresh browser starts with no claims and the three seed documents, all verified |
| ClaimsContext.ReloadRoundTrip | src/context/ClaimsContext.jsx:25-31 | What the persistence effects write is exactly what the next mount reads back: reloading a persisted ledger gives the same ledger |
| ClaimsContext.MountIdempotent | src/context/ClaimsContext.jsx:15-23 | Mounting again over the store a mount left behind gives the same result |
| ClaimsContext.ClaimNumber | src/context/ClaimsContext.jsx:36 | For every random draw in [0, 1) the generated claim number is a three-digit number, 100 to 999 |
| ClaimsContext.ClaimNumberCoversRange | src/context/ClaimsContext.jsx:36 | Every number from 100 to 999 is the claim number of some draw |
| ClaimsContext.NewClaim | src/context/ClaimsContext.jsx:34-40 | The record carries every field the caller supplied; the omitted ones get the clock, a 100-999 claim number, the date text and "submitted" |
| ClaimsContext.AddClaim | src/context/ClaimsContext.jsx:33-43 | The new claim goes in front and the old claims follow unchanged; the vault is untouched; only the claims key of the store changes and it holds the new list; a supplied field overrides the generated id, number, date and status; omitted ones get the clock, a 100-999 number, the date text and "submitted" |
| ClaimsContext.ActiveClaim | src/context/ClaimsContext.jsx:56 | There is an active claim exactly when the ledger is non-empty, and it is the newest claim, the first of the newest-first list |
| ClaimsContext.AddClaimsShape | src/context/ClaimsContext.jsx:41 | After any run of `addClaim` calls the ledger lists the returned claims newest first, in front of the old ones, and the vault is unchanged |
| ClaimsContext.LastAddedIsActive | src/context/ClaimsContext.jsx:33-56 | After a non-empty run of `addClaim` calls the active claim is the one the last call returned; an empty run leaves it as it was |
| ClaimsContext.TypeTag | src/context/ClaimsContext.jsx:49 | The document type tag is never empty |
| ClaimsContext.TypeTagOfSubtype | src/context/ClaimsContext.jsx:49 | For a media type `type/subtype`, possibly with more `/` segments after it, the tag is the upper-cased subtype, or "FILE" when the subtype is empty |
| ClaimsContext.TypeTagWithoutSlash | src/context/ClaimsContext.jsx:49 | A media type without `/` is tagged "FILE" |
| ClaimsContext.TypeTagExamples | src/context/ClaimsContext.jsx:49 | "image/jpeg" is tagged "JPEG"; "image/" and the empty media type are tagged "FILE" |
| ClaimsContext.AddDocument | src/context/ClaimsContext.jsx:45-54 | One pending document carrying the file's name, the clock, the date text and the type tag goes in front of the vault; the old documents follow unchanged; claims are untouched; only the documents key of the store changes |
| Assessor.BeginScan | src/pages/Assessor.jsx:37-41 | Once the reader has produced the data URL, the workflow shows that image, is in `scanning` and is analysing; an earlier report stays |
| Assessor.FinishScan | src/pages/Assessor.jsx:43-55 | Success stores the parsed value and goes to `results`; a falsy value such as `null` is stored as no report. Failure alerts "Analysis failed: " followed by the message, drops the image and returns to `upload`, keeping any earlier report. In both cases the analysing flag ends false |
| Assessor.ProcessFile | src/pages/Assessor.jsx:33-60 | A missing file or a non-image changes nothing. An image ends in `results` with the analysed value as the report, or back in `upload` with a non-empty alert, according to what the analysis of that image returns |
| Assessor.Reset | src/pages/Assessor.jsx:84-88 | "Scan Another" returns to `upload` with neither image nor report, and leaves the analysing flag alone |
| Assessor.ClaimFields | src/pages/Assessor.jsx:23-28 | The hand-off supplies no id, number, date or status, so `addClaim` generates them. Vehicle and incident fall back to the defaults when the report's value is falsy; estimate and parts are copied as they are |
| Assessor.ProceedToClaim | src/pages/Assessor.jsx:20-31 | Without a report nothing happens and there is no navigation. With a report, exactly one claim is filed and becomes the active claim, and the page navigates. Vehicle and incident fall back to the defaults when the report's value is falsy. Estimate and parts are copied as they are, and the status is "submitted". The filed claim carries the clock as id and the date text, only the claims key of the store changes, and a persisted ledger stays persisted |
| Assessor.WorkflowStaysObservable | src/pages/Assessor.jsx:33-88 | The mount state is settled, and every file selection and every "Scan Another" leaves it settled: no analysis running, not in `scanning`, and `results` only with an image. After an image is analysed, the report card with its buttons is shown exactly when the analysis yields a truthy value that carries a `parts` list |
| Assessor.ImageToClaimScenario | src/pages/Assessor.jsx:20-60 | An image whose analysis yields a report with parts reaches `results` with the report card shown, and confirming it files one claim carrying the report's parts |
| Assessor.NullReportScenario | src/pages/Assessor.jsx:43-47 | An image whose answer parses to a falsy value reaches `results` without a report: no report card is shown and "Proceed" would file nothing |
| Assessor.NonImageScenario | src/pages/Assessor.jsx:33-34 | A PDF leaves the fresh workflow as it was, and "Proceed" afterwards files nothing |
| Groq.ChatAnswer | src/services/groq.js:14-44 | The chat call never fails and never answers with an empty text. Usable content is returned as it is. Missing or empty content gives the Pidgin fallback. A failed call gives the connection apology |
| Groq.StripFences | src/services/groq.js:91 | The cleaned text has no whitespace at either end, contains no three-backtick fence, and is no longer than the content |
| Groq.RemoveAllFenceLeavesNone | src/services/groq.js:91 | After every "```" is removed, none is left, even where removals bring backticks together |
| Groq.TrimKeepsAbsence | src/services/groq.js:91 | Trimming cannot create an occurrence of a pattern |
| Groq.StripWithoutBackticks | src/services/groq.js:91 | Content without backticks is only trimmed |
| Groq.StripFencedBlock | src/services/groq.js:89-92 | A reply wrapped as "```json" … "```" around backtick-free text is cleaned to that text, trimmed |
| Groq.StripIdempotent | src/services/groq.js:91 | Cleaning cleaned text changes nothing |
| Groq.Rethrown | src/services/groq.js:95 | The rethrown message is never empty: a non-empty original message is kept, an empty one is replaced by the fixed fallback |
| Groq.AnalyzeDamage | src/services/groq.js:51-97 | Content that parses gives the parsed value, which may be a falsy one such as `null`. A failed call, missing content or a parse failure gives an error with a non-empty message: the original message when it has one, the fallback otherwise |
| Voice.VoiceId | src/services/voice.js:39 | A known language gets its own voice; any other language gets the English voice; the result is always one of the five voices |
| Voice.Locale | src/services/voice.js:80-88 | A known language gets its mapped locale and any other gets "en-NG"; the result is always one of the mapped locales |
| Voice.LocaleTable | src/services/voice.js:80-86 | English and Pidgin share "en-NG"; no other two languages share a locale |
| Voice.SpeakWithBrowser | src/services/voice.js:70-93 | Without a synthesiser nothing happens. Otherwise ongoing speech is cancelled, then one utterance of the text is spoken in the language's locale |
| Voice.AudioUrl | src/services/voice.js:44-54 | A reply yields an audio URL exactly when it is OK and carries a truthy `audio_url` or `url`; the URL is never empty and `audio_url` takes precedence |
| Voice.SpeakNative | src/services/voice.js:21-65 | Without a key nothing is sent and the browser speaks. With a key the request carries the bearer token, the text and the language's voice. Audio plays exactly when the reply is OK and carries a truthy `audio_url` or `url`, `audio_url` taking precedence, and then the browser stays silent. Every other outcome falls back to the browser |
| Advisor.InitialSessionShape | src/pages/Advisor.jsx:19-24 | The chat opens with the greeting alone, an empty input, Pidgin selected and nobody typing |
| Advisor.SelectLanguage | src/pages/Advisor.jsx:62 | Choosing a language changes only the selection |
| Advisor.StartSend | src/pages/Advisor.jsx:33-42 | A whitespace-only input is refused, and only such input is. Otherwise the input is appended verbatim as a user turn, the box is cleared, the typing indicator rises, and the untrimmed input is sent with the selected language's name |
| Advisor.StartSendGuardIsTrim | src/pages/Advisor.jsx:34 | The refusal test is `!input.trim()`: a send is refused exactly when trimming the input leaves nothing |
| Advisor.FinishSend | src/pages/Advisor.jsx:44-46 | The answer, or the fallback text, is appended as an assistant turn and the indicator drops; input and language are untouched |
| Advisor.Send | src/pages/Advisor.jsx:33-47 | A refused input leaves the session unchanged. Otherwise exactly two turns are appended after the unchanged history: the user's verbatim text with the first clock reading as id, then the chat's answer (the content, or a fallback text, never empty) with the second reading plus one as id. The box ends empty and the indicator ends down |
| Advisor.SendAppends | src/pages/Advisor.jsx:33-47 | One send keeps every earlier turn, and adds two turns when the input is accepted and none when it is refused |
| Advisor.HistoryIsAppendOnly | src/pages/Advisor.jsx:33-47 | Over any run of sends, each with its own input, clock readings and chat outcome, earlier turns are never rewritten, and the history grows by exactly two turns per accepted input |
| Advisor.PidginQuestionScenario | src/pages/Advisor.jsx:23-47 | Sending a question with the default Pidgin selection appends the question and one answer, and asks for the answer in "Pidgin" |
| Marketplace.Compare | src/pages/Marketplace.jsx:105-108 | With both keys numeric, the comparator is negative, zero or positive exactly as the first key is below, equal to or above the second. A missing key (a `NaN` difference, or a selection with no key) compares as 0 |
| Marketplace.Insert | src/pages/Marketplace.jsx:105 | One insertion step of the sort adds exactly one place. Its permutation, order and stability properties are the three rows below |
| Marketplace.InsertPermutes | src/pages/Marketplace.jsx:105 | Inserting adds exactly the inserted insurer and loses nothing |
| Marketplace.InsertSorted | src/pages/Marketplace.jsx:105-107 | Inserting a keyed insurer into a list ordered by key keeps it ordered |
| Marketplace.InsertStable | src/pages/Marketplace.jsx:105-107 | Inserting into an ordered list places the new insurer after every earlier insurer with the same key |
| Marketplace.Sort | src/pages/Marketplace.jsx:105 | The sorted copy has as many entries as the table. That it is a permutation, ordered and stable is stated by the rows that follow |
| Marketplace.SortPermutes | src/pages/Marketplace.jsx:105 | The sorted copy is a permutation of the input |
| Marketplace.SortedInsurers | src/pages/Marketplace.jsx:105-109 | Whatever the selection, the list shown holds exactly the insurers of the table |
| Marketplace.SortUnkeyedKeepsOrder | src/pages/Marketplace.jsx:108 | A comparator that always answers 0 keeps the input order |
| Marketplace.SortOrdersByKey | src/pages/Marketplace.jsx:105-107 | When every entry has a numeric key, the result is ordered by non-decreasing key |
| Marketplace.SortIsStable | src/pages/Marketplace.jsx:105-107 | Entries with equal keys keep their input order |
| Marketplace.SortedStableUnique | src/pages/Marketplace.jsx:105-107 | Being ordered by key and keeping ties in input order determine the list: two such arrangements are equal |
| Marketplace.StableSortIsUnique | src/pages/Marketplace.jsx:105-107 | Any arrangement of the input that is ordered by key and keeps ties in input order is the modelled sort's result, so the order shown does not depend on the engine's sort algorithm |
| Marketplace.SortedInsurersOrdered | src/pages/Marketplace.jsx:105-107 | "cheapest" orders any table by price, and "fastest" orders by payout speed whenever every speed starts with a number; ties keep table order |
| Marketplace.CheapestOrder | src/pages/Marketplace.jsx:106 | "cheapest" shows Mutual Benefits, AIICO, Leadway, AXA |
| Marketplace.FastestKeys | src/pages/Marketplace.jsx:107 | The payout speeds read as 24, 48, 3 and 5, so "days" and "hours" are compared as bare numbers |
| Marketplace.FastestOrder | src/pages/Marketplace.jsx:107 | "fastest" shows AIICO, Mutual Benefits, Leadway, AXA |
| Marketplace.PopularOrder | src/pages/Marketplace.jsx:108 | "popular", and any other selection, shows the table as declared |
| ClaimsPage.Sanitize | src/pages/Claims.jsx:20 | The sanitised name contains no whitespace |
| ClaimsPage.DownloadName | src/pages/Claims.jsx:20 | The download name is the sanitised document name followed by ".txt", so its stem contains no whitespace |
| ClaimsPage.SanitizeKeepsPlainNames | src/pages/Claims.jsx:20 | A name without whitespace is kept as it is |
| ClaimsPage.SanitizeIdempotent | src/pages/Claims.jsx:20 | Sanitising twice is sanitising once |
| ClaimsPage.SanitizeAppend | src/pages/Claims.jsx:20 | Sanitising a concatenation sanitises the second part in the run state the first part ends in |
| ClaimsPage.SanitizeRun | src/pages/Claims.jsx:20 | A whitespace run gives one underscore when it starts a run and nothing when it continues one |
| ClaimsPage.SanitizeSplitsAtRun | src/pages/Claims.jsx:20 | A whitespace run between two words becomes exactly one underscore, and the two sides are sanitised independently |
| ClaimsPage.ExportText | src/pages/Claims.jsx:13 | The export starts with the placeholder sentence naming the document |
| ClaimsPage.ExportTextIsJoin | src/pages/Claims.jsx:13 | The export is its four lines joined by line breaks |
| ClaimsPage.ExportTextLines | src/pages/Claims.jsx:13 | When no field contains a line break, the export splits back into exactly its four lines: sentence, Type, Uploaded, Status |
| ClaimsPage.BadgeOf | src/pages/Claims.jsx:41-45 | The badge is "Verified" exactly for the status "verified", and "Pending" for every other status |
| ClaimsPage.BadgesOfSeedAndUpload | src/pages/Claims.jsx:41-45 | The seed documents show as verified, and a freshly uploaded document shows as pending |
| ClaimsPage.FirstFile | src/pages/Claims.jsx:90 | There is a file exactly when the list exists and is non-empty, and it is the first one |
| ClaimsPage.HandleFileChange | src/pages/Claims.jsx:89-94 | Without a file the ledger is unchanged. With one, exactly one pending document is added in front: named after the first file, with the clock as id, the date text and the file's type tag. Claims are untouched, only the documents key of the store changes, and persistence is kept |
| ClaimsPage.UploadSurvivesReload | src/pages/Claims.jsx:89-94 | After a file change on a persisted ledger, mounting the store again gives the same claims and vault back; the new document shows as pending and the active claim is unchanged |
| ClaimsPage.Heading | src/pages/Claims.jsx:172 | Without an active claim the heading is "No Active Claim"; otherwise it starts with "Active Claim #" and continues |
| ClaimsPage.HeadingNamesClaim | src/pages/Claims.jsx:172 | The text after "#" reads back as the claim's number |
| ClaimsPage.HeadingAfterAddClaim | src/pages/Claims.jsx:172 | Right after `addClaim` the heading names the new claim's number |
| Text.Trim | src/pages/Advisor.jsx:34 | `trim` leaves a slice with whitespace cut from both ends and none at either end of what is left. It is empty exactly for all-whitespace input and keeps a string that is already trimmed |
| Text.Upper | src/context/ClaimsContext.jsx:49 | Upper-casing keeps the length and maps each character on its own, lower-case ASCII letters to upper case |
| Text.Split | src/context/ClaimsContext.jsx:49 | `split` on one character gives at least one part and no part contains the separator; joining the parts gives the string back |
| Text.SplitAtFirst | src/context/ClaimsContext.jsx:49 | The first separator ends the first part |
| Text.SplitJoin | src/pages/Claims.jsx:13 | Splitting inverts joining for parts that do not contain the separator |
| Text.ParseLeadingInt | src/pages/Marketplace.jsx:107 | After leading whitespace and one optional sign, `parseInt` gives `NaN` exactly when no digit follows. Otherwise the value is at most 0 after a minus sign and at least 0 without one |
| Text.RemoveAll | src/services/groq.js:91 | Global removal never lengthens the text, and leaves text where the pattern's first character never appears unchanged |
| Text.RemoveAllAbsent | src/services/groq.js:91 | Removing a pattern that does not occur leaves the text unchanged |
| Text.RemoveAllFreePrefix | src/services/groq.js:91 | A leading part free of the pattern's first character passes through removal untouched |
| Text.IntToDecimal | src/pages/Claims.jsx:172 | `String(n)` of an integer is a non-empty numeral that starts with a digit or a minus sign; `DecimalRoundTrip` is its inverse |
| Text.DecimalRoundTrip | src/pages/Marketplace.jsx:107 | `parseInt` reads back the decimal numeral of any integer, whatever non-digit text follows it |

## Left out

- Rendering, styling, animation, routing and the pages not listed above are left out. They hold no state the model needs.
- The asynchronous interleaving of React state updates is left out. Each handler is one atomic step, and the `await` in `handleSend` and `processFile` is a parameter.
- `JSON.parse` and `JSON.stringify` are left out. The store holds values, not text. A slot that does not read back as the expected list is modelled as a distinct shape, and parsing the model's answer is a function parameter.
- `Mount`: a stored empty string is falsy in the source and gives the default list. The model has no slot for text, so it does not cover this case.
- Prototype-inherited keys are left out. `AMEBO_VOICES[language]` and `langMap[language]` look up `toString` and similar keys through the prototype. The model uses plain maps, so such languages get the defaults.
- `ClaimsContext.AddClaim`: a caller that passes a key explicitly as `undefined` overwrites the default with `undefined`. The model's `None` means the key is absent. No caller in the application passes such a key for the defaulted fields.
- `Text.Upper` upper-cases only ASCII letters. `toUpperCase` follows full Unicode case mapping, which can change the length (for example "ß" becomes "SS").
- `Text.IntToDecimal`: JavaScript numbers are doubles, and the model uses unbounded integers. `String(n)` switches to exponent form at 10^21 in magnitude ("1e+21"), and integers above 2^53 are not exact. The model always writes the plain decimal numeral. The application formats only claim numbers, which `addClaim` draws from 100 to 999, and parses only payout speeds below 100.
- `Text.DecimalRoundTrip`: it holds for the plain numeral the model writes. For a number of magnitude 10^21 or more, JavaScript's exponent form does not read back (`parseInt("1e+21")` is 1); the lemma does not cover that case, for the reason given on the line above.
- `ClaimsPage.HeadingNamesClaim`: the heading reads back as the claim number only below 10^21 in magnitude in JavaScript. Claim numbers the application generates are 100 to 999; a caller-supplied number of 10^21 or more would be written in exponent form and would not read back.
- `Text.DecimalRoundTrip`: `parseInt` with a "0x" prefix reads hexadecimal. That branch is not modelled, because no text the application parses starts with "0x".
- Date formatting (`toLocaleString`, `toLocaleDateString`) is left out. The formatted text is a parameter.
- `Voice.SpeakWithBrowser`: speech rate 0.85 and pitch 1.0 are recorded as reals. The browser's floating-point handling is not modelled.
- `Voice.SpeakNative`: the status of a non-OK reply, the error body it carries, and a rejected `audio.play()` promise are left out. None of them changes which path is taken: a non-OK reply always falls back, and a playback failure is never caught.
- `Marketplace`: `Array.prototype.sort` is modelled as a stable insertion sort. When every entry has a numeric key, `StableSortIsUnique` shows the result is the one stable ordered arrangement, whatever algorithm the engine uses. The table's comparators are all of that kind. With a comparator that is not consistent (a `NaN` key among numeric ones), the order an engine produces is implementation-defined, and the model gives one of the possible orders.
- `Groq.AnalyzeDamage`: the wording of the `TypeError` thrown when the reply has no content comes from the JavaScript engine. The model uses one fixed non-empty text.
- The prompt text, the model names, temperature and token limits of the two language-model calls are left out. They do not affect the program's own logic.
- Only the heading of the claim-status timeline is modelled. The timeline items and the empty-vault message are rendering.
- The browser download mechanics (Blob, object URL, anchor click, cleanup) are left out. Only the file name and the text are modelled.
- The code has three step values. A failed analysis returns to `upload` and drops the image, and it keeps any earlier report. That report cannot be filed: `handleProceedToClaim` guards only on the report, but its button is rendered only in `results` with a truthy result (Assessor.jsx:195), and the next successful scan replaces the report.
- `ClaimsContext.Mount`: the store holds typed lists, not text. The code fails only on stored text that `JSON.parse` rejects. Well-formed JSON of another shape, such as the documents array stored under `insuria_claims`, loads without an error as a list of records of the wrong shape. The model cannot type such a list and reports that slot as unreadable instead.
- Rendering errors are left out. An analysis result without a `parts` list throws while the report card renders, and nothing catches it. The model records this only as `Assessor.ShowsReport` being false for such a result.
- `Assessor.WorkflowStaysObservable`: the analysis is one atomic step, so the lemma does not cover a language-model call that never settles. The `await` has no timeout, so such a call leaves the screen in `scanning` with the analysing flag up.
- `Text.ParseLeadingInt`: `parseInt` reads hexadecimal after a "0x" or "0X" prefix. That branch is not modelled, because no payout speed starts with "0x".
