# Receipt tagger: session store, receipt form and session start, in Dafny

This project models the core of a mobile expense-receipt app. A user starts
a session (name, location, a label made of initials and the date), captures
receipts into it, edits each receipt on a form, and finally submits the
session as an expense report. The model covers:

- the **session store** (`hooks/session-store.ts`): the current session,
  the list of all sessions and the loading flag, written through to a
  key/value storage under the key `sessions`. It also covers the storage's
  guards, the deterministic parts of submission and the final transition
  to `submitted`.
- the **receipt form** (`app/receipt-details.tsx`): the date and cost
  sanitisers, the GL-code choice from category and location, the checks on
  save, the `MM/DD/YYYY` rewrite and the default date.
- the **start-session screen** (`app/start-session.tsx`): the session label
  and the start guard.
- the **category catalogue** (`constants/categories.ts`) and the **data
  types** (`types/receipt.ts`).

Layout:

- `results.dfy`: `Option` and `Result`.
- `seqs.dfy`: the `filter` and `find` of arrays.
- `text.dfy`: JavaScript's `trim`, `String(n)`, `padStart(2, '0')` and the
  ASCII part of `toUpperCase`.
- `types.dfy`: the records of `types/receipt.ts` and the shallow merge
  `{ ...r, ...updates }`.
- `categories.dfy`: the catalogue.
- `storage.dfy`: `useStorage`, as a class over a `map`.
- `session_model.dfy`: the store's operations as pure steps on a
  `Snapshot`.
- `submission.dfy`: naming and staging of attachments, the report text and
  the delivery decision.
- `session_store.dfy`: the class `Store`. Each of its methods is proved to
  perform exactly the matching step, and to write the result through to
  storage.
- `receipt_details.dfy`: the form rules and the class `ReceiptForm`.
- `start_session.dfy`: the label and the class `StartSessionForm`.

Clock readings (`Date.now()`, today's date), `JSON.stringify`/`JSON.parse`
and every outcome of the file system, the mail composer, the share sheet
and the URL opener are parameters.

Behaviours of the code that the model keeps as they are:

- Two sessions can be active at once. `startNewSession` does not mark the
  previous current session submitted, so after a restart the old entry and
  the new one are both active (`SessionModel.StartNewSessionKeepsOldActive`).
  The invariant proved is that the current session, when there is one, is
  active.
- A failed parse on load leaves the session list as it was, not emptied
  (`SessionModel.LoadFindsFirstActive`); at start-up the list is empty
  anyway.
- In edit mode the form loads the stored date `MM/DD/YYYY` into the date
  field unchanged, as the code does (`ReceiptDetails.ReceiptForm.Prefill`).
  An untouched date then fails the length check of save
  (`ReceiptDetails.EditUntouchedDate`). The intended behaviour is stated
  beside it and listed under "## Findings"; the form does not use it.
- The edit route from the home screen carries the receipt id and the mode
  but no image, so the saved receipt has an empty image and the full update
  overwrites the stored photo (`ReceiptDetails.EditDropsImageAsWritten`).
  The update that keeps the photo is stated beside it and listed under
  "## Findings"; the form does not use it.

## Model

| member | source | states |
|---|---|---|
| Text.Trim | hooks/session-store.ts:13-14 | the trimmed text is no longer than the input, and when it is not empty it neither starts nor ends with whitespace |
| Text.TrimEmptyIff | hooks/session-store.ts:13-14 | `!s.trim()` holds exactly when every character of `s` is whitespace |
| Text.TrimIgnoresBlanks | app/start-session.tsx:28-35 | whitespace typed before or after a name does not change its trimmed value |
| Text.DecimalString | app/start-session.tsx:32 | `String(n)` is at least one character, all decimal digits, and starts with `0` only for zero |
| Text.DecimalStringValue | app/start-session.tsx:32 | the decimal rendering of a year reads back as that year |
| Text.DecimalStringLength | app/start-session.tsx:32 | a four-digit year renders in four characters, and so on for one, two and three digits |
| Text.Pad2 | app/start-session.tsx:30-31 | `padStart(2, '0')` of a number gives at least two digits; below 100 exactly the tens digit and the units digit |
| Text.Pad2Value | app/start-session.tsx:30-31 | the two-digit month and day read back as the month and the day |
| Text.TrimUnpadded | hooks/session-store.ts:13-14 | a text that neither starts nor ends with whitespace is its own trim; with the two lemmas above this fixes `trim` on every input |
| Text.ToUpperAscii | app/start-session.tsx:34-35 | a lower-case ASCII letter becomes the matching capital; every other character is kept |
| ReceiptTypes.LocationCode | types/receipt.ts:22 | a location is written as one of the two-letter codes GR, OK, MA |
| ReceiptTypes.Merge | hooks/session-store.ts:120 | every field the updates supply takes the supplied value, and every field they leave out keeps the receipt's value |
| ReceiptTypes.MergeLaws | hooks/session-store.ts:120 | merging no updates leaves a receipt as it is; merging a whole receipt replaces it; merging the same updates twice equals merging once |
| ReceiptTypes.MergeCostOnly | hooks/session-store.ts:120 | updates that only supply the cost change the cost and nothing else |
| Categories.Catalogue | constants/categories.ts:3-16 | the twelve categories with their ids, names and GL codes, in the order of the source |
| Categories.FindByName | app/receipt-details.tsx:48 | the lookup returns the first catalogue entry with that name; it returns nothing exactly when no entry has it |
| Categories.CatalogueIds | constants/categories.ts:3-16 | the catalogue has twelve entries, with ids `1` to `12` in order |
| Categories.CatalogueNamesDistinct | constants/categories.ts:4-15 | names and ids are pairwise distinct, so the lookup by a name finds that name's only entry |
| Categories.CatalogueCodes | constants/categories.ts:4-15 | the sentinel code `Misc. Expense` belongs to the Misc. Expense entry only; every other code is four digits, `-`, two digits |
| Categories.SharedGlCode | constants/categories.ts:9-15 | two different entries share a GL code, so a code does not determine its category |
| Storage.Put | hooks/session-store.ts:12-22 | every other key keeps its value, and no key appears except the existing ones and the trimmed key |
| Storage.Get | hooks/session-store.ts:24-34 | a read answers exactly when the key is valid and its trimmed form is stored, and then answers the stored value |
| Storage.PutRejects | hooks/session-store.ts:12-18 | a write is taken exactly when the key is not blank and has at most 100 characters and the value is not blank and has at most 10000; a refused write changes nothing; a taken one stores the trimmed value under the trimmed key |
| Storage.GetRejects | hooks/session-store.ts:24-25 | a read with a blank key or a key over 100 characters answers nothing |
| Storage.GetAfterPut | hooks/session-store.ts:12-29 | a read after a taken write returns the trimmed value; reads of other trimmed keys are not affected |
| Storage.KeyValueStore.SetItem | hooks/session-store.ts:12-22 | the stored items become those of the guarded write |
| Storage.KeyValueStore.GetItem | hooks/session-store.ts:24-34 | answers the guarded read and changes nothing; an answer implies a valid key |
| SessionModel.Sanitize | hooks/session-store.ts:75 | keeps exactly the sessions that have an id |
| SessionModel.SanitizeInOrder | hooks/session-store.ts:75 | sanitizing works piecewise over concatenation, so the kept sessions stay in their order |
| SessionModel.SanitizeOne | hooks/session-store.ts:75 | a single session is kept exactly when its id is not empty |
| SessionModel.ReplaceById | hooks/session-store.ts:108-110 | same length; each entry whose id matches becomes the updated session and every other entry is unchanged at its index |
| SessionModel.SanitizeClean | hooks/session-store.ts:75 | a list in which every session has an id passes unchanged |
| SessionModel.ReplaceKeepsClean | hooks/session-store.ts:108-110 | replacing the entry with the current id keeps every entry's id non-empty |
| SessionModel.FirstActive | hooks/session-store.ts:54 | finds the first session with status active, or nothing exactly when none is active |
| SessionModel.UpdateReceipts | hooks/session-store.ts:119-121 | same length; each receipt whose id matches gets the updates merged in and every other receipt is unchanged at its index |
| SessionModel.UpdateUnknownId | hooks/session-store.ts:119-121 | updating an id that no receipt has leaves the receipts identical |
| SessionModel.RemoveReceipts | hooks/session-store.ts:137 | keeps exactly the receipts whose id differs |
| SessionModel.RemoveInOrder | hooks/session-store.ts:137 | removal works piecewise over concatenation, so the kept receipts stay in their order |
| SessionModel.RemoveAbsent | hooks/session-store.ts:137 | removing an id that no receipt has changes nothing |
| SessionModel.RemoveIdempotent | hooks/session-store.ts:137 | removing an id twice equals removing it once |
| SessionModel.Save | hooks/session-store.ts:72-82 | over 1000 sessions nothing changes and nothing is written; otherwise the list becomes exactly the sanitized input, in its order, and that list is written; current is untouched |
| SessionModel.ReplaceCurrent | hooks/session-store.ts:101-111 | the updated session becomes current, and a written list is exactly the new list |
| SessionModel.ReplaceCurrentSessions | hooks/session-store.ts:101-111 | the updated session becomes current; when the list has at most 1000 sessions and every listed session has an id, only entries with the current id are replaced and every other entry keeps its place and value; over the cap the list is untouched |
| SessionModel.StartNewSession | hooks/session-store.ts:84-96 | the new session, with no receipts and status active, becomes current |
| SessionModel.StartNewSessionAppends | hooks/session-store.ts:84-96 | for a non-empty id: below 1000 sessions, when every listed session has an id, the new session is appended after the unchanged earlier entries; at 1000 or more it is current but not listed and nothing is written |
| SessionModel.StartNewSessionKeepsOldActive | hooks/session-store.ts:84-96 | for a non-empty id, below 1000 sessions and when every listed session has an id, an active entry already in the list stays active beside the new active session, so two entries are active afterwards |
| SessionModel.AddReceipt | hooks/session-store.ts:98-112 | with no current session nothing changes; otherwise the receipt is appended to the current session |
| SessionModel.AddReceiptGrowsByOne | hooks/session-store.ts:103 | the receipts grow by exactly one, at the end, with the earlier receipts in order |
| SessionModel.UpdateReceipt | hooks/session-store.ts:114-130 | with no current session nothing changes; otherwise the current session's receipts are updated by id |
| SessionModel.UpdateReceiptMerges | hooks/session-store.ts:119-121 | every receipt with the id gets the updates merged in and every other receipt is untouched; an unknown id leaves the current session as it was |
| SessionModel.DeleteReceipt | hooks/session-store.ts:132-146 | with no current session nothing changes; otherwise the current session loses the receipts with the id |
| SessionModel.DeleteReceiptIdempotent | hooks/session-store.ts:132-146 | with a current session, deleting an absent id keeps it; when the list has at most 1000 sessions and every listed session has an id, deleting twice leaves the same state as deleting once |
| SessionModel.EndSession | hooks/session-store.ts:281-290 | with no current session nothing changes; otherwise current becomes none |
| SessionModel.EndSessionMarksSubmitted | hooks/session-store.ts:284-289 | with a current session, at most 1000 listed sessions and every listed session having an id, the entry with the current id becomes the current session with status submitted and the same receipts; every other entry is unchanged |
| SessionModel.Load | hooks/session-store.ts:46-64 | an active current session stays active after a load |
| SessionModel.LoadFindsFirstActive | hooks/session-store.ts:48-58 | nothing stored or a parse failure changes nothing; after a parse the list is the parsed one and the first active entry becomes current, or current stays as it was when none is active |
| SessionModel.StepsKeepCurrentActive | hooks/session-store.ts:84-146 | every operation keeps the current session, if any, in status active |
| SessionStore.Persist | hooks/session-store.ts:72-77 | nothing written or a refused value leaves storage as it was; a written list is stored as its trimmed serialization under `sessions`; every other key is untouched |
| SessionStore.SaveThenLoad | hooks/session-store.ts:48-76 | a load after a write reads back the written list when its serialization fits the value limit; an over-long serialization leaves storage as it was |
| SessionStore.Store.constructor | hooks/session-store.ts:40-43 | no current session, no sessions, loading |
| SessionStore.Store.LoadSessions | hooks/session-store.ts:46-64 | the state becomes the load step of what storage holds, and loading is false afterwards |
| SessionStore.Store.SaveSessions | hooks/session-store.ts:72-82 | the state and storage become those of the save step |
| SessionStore.Store.StartNewSession | hooks/session-store.ts:84-96 | the state and storage become those of the start step with the clock reading as id |
| SessionStore.Store.AddReceipt | hooks/session-store.ts:98-112 | the state and storage become those of the add step |
| SessionStore.Store.UpdateReceipt | hooks/session-store.ts:114-130 | the state and storage become those of the update step |
| SessionStore.Store.DeleteReceipt | hooks/session-store.ts:132-146 | the state and storage become those of the delete step |
| SessionStore.Store.EndSession | hooks/session-store.ts:281-290 | the state and storage become those of the end step |
| SessionStore.Store.SubmitSession | hooks/session-store.ts:150-277 | the outcome is the submission verdict; a failure changes nothing; a success performs the end step |
| Submission.SafeName | hooks/session-store.ts:196 | same length as the description; ASCII letters and digits kept, every other character becomes `_` |
| Submission.SafeNameIdempotent | hooks/session-store.ts:196 | sanitizing twice equals sanitizing once |
| Submission.AttachmentName | hooks/session-store.ts:196 | the name starts with `receipt_` and ends with `.jpg` |
| Submission.AttachmentNameParts | hooks/session-store.ts:196 | the name is `receipt_`, the 1-based index in decimal, `_`, the sanitized description and `.jpg`, and the index reads back |
| Submission.ImagePath | hooks/session-store.ts:197 | the copy's path is the document directory, `temp_`, then the attachment name |
| Submission.SummaryPath | hooks/session-store.ts:213-214 | the summary's path is the document directory, `expense_report_`, the session id, then `.txt` |
| Submission.AttachmentNamesDiffer | hooks/session-store.ts:196 | receipts at different positions get different attachment names, whatever their descriptions |
| Submission.ImagePathsDistinct | hooks/session-store.ts:196-197 | receipts at different positions are copied to different paths, so no copy overwrites another |
| Submission.SummaryIsNotImage | hooks/session-store.ts:196-214 | the summary file never takes the path of an image copy |
| Submission.StagedImages | hooks/session-store.ts:191-210 | at most one staged path per receipt looked at |
| Submission.StagedImagesMembers | hooks/session-store.ts:191-210 | a path is staged exactly when it is the temporary path of a receipt with an image whose copy succeeded |
| Submission.StagedImagesAll | hooks/session-store.ts:191-210 | when every receipt has an image and no copy fails, the i-th staged path is the i-th receipt's |
| Submission.StageAttachments | hooks/session-store.ts:188-217 | when the summary file is written, the list is the staged images followed by the summary path, so it is never empty; otherwise there is no list |
| Submission.ReportHeader | hooks/session-store.ts:160-173 | the report starts with the line `Expense Report - Session <id>` |
| Submission.ReceiptBlock | hooks/session-store.ts:174-183 | each block starts with `Receipt ` and ends with the `---` separator and a blank line |
| Submission.ReportBody | hooks/session-store.ts:160-183 | the body starts with the whole header |
| Submission.ConcatInOrder | hooks/session-store.ts:174-183 | each receipt block appears in the report after all earlier blocks |
| Submission.AppendNextPart | hooks/session-store.ts:174-183 | appending the next block to the text built so far gives the text followed by the join of one more block |
| Submission.ComposeBody | hooks/session-store.ts:160-183 | the text built by appending is the header followed by every receipt block in order |
| Submission.Subject | hooks/session-store.ts:185 | the subject is `Expense Report - `, the session date, ` - ` and the total, each at its place |
| Submission.Deliver | hooks/session-store.ts:219-254 | with the composer, success exactly when it answers something other than cancelled; cancelled fails as cancelled; the `mailto:` branch is taken only with no attachments |
| Submission.SubmitVerdict | hooks/session-store.ts:150-254 | no session or no receipts fails before anything else; success needs receipts and a written summary; the composer answer decides as above; `mailto:` is never used |
| ReceiptDetails.DigitsOnly | app/receipt-details.tsx:69 | only digits remain, and no more characters than typed |
| ReceiptDetails.FormatDateText | app/receipt-details.tsx:67-75 | the digits of the input in their order, cut to the first eight |
| ReceiptDetails.FormatDateIdempotent | app/receipt-details.tsx:67-75 | formatting twice equals formatting once |
| ReceiptDetails.DigitsOnlyInOrder | app/receipt-details.tsx:69 | the digits of a concatenation are the digits of each part, and a character is kept exactly when it is a digit |
| ReceiptDetails.SlashDate | app/receipt-details.tsx:111 | the stored date has ten characters with `/` at the third and the sixth |
| ReceiptDetails.SlashDateShape | app/receipt-details.tsx:111 | the stored date has ten characters: two digits, `/`, two, `/`, four |
| ReceiptDetails.SlashDateRoundTrip | app/receipt-details.tsx:111 | dropping the slashes gives back the eight typed digits |
| ReceiptDetails.RetypedDate | app/receipt-details.tsx:67-111 | typing the stored date into the date field gives the eight digits back |
| ReceiptDetails.DefaultDate | app/receipt-details.tsx:36-40 | the default date is made of digits only, at least five of them |
| ReceiptDetails.DefaultDateShape | app/receipt-details.tsx:36-40 | for a real date with a four-digit year the default is eight digits: month, day, year |
| ReceiptDetails.DefaultDateStored | app/receipt-details.tsx:36-40 | the default date is stored as month `/` day `/` year |
| ReceiptDetails.FormatCostText | app/receipt-details.tsx:77-93 | the keystroke is ignored exactly when the digits-and-dots text has more than one `.` |
| ReceiptDetails.FormatCostShape | app/receipt-details.tsx:77-93 | the keystroke is ignored exactly when two `.` remain; otherwise the cost has only digits and at most one `.`, at most two characters after it, and is the prefix of the cleaned input that keeps all of it without a `.`, else everything before the `.` and the first two decimals |
| ReceiptDetails.CutToCents | app/receipt-details.tsx:88-92 | the kept cost is the prefix of the cleaned text that has all of it without a `.`, and otherwise everything before the `.`, the `.` and at most two characters after it |
| ReceiptDetails.CutToCentsExamples | app/receipt-details.tsx:88-92 | `12.345` becomes `12.34` and `12.5` stays `12.5` |
| ReceiptDetails.FormatCostIdempotent | app/receipt-details.tsx:77-93 | a cost the field already holds comes back unchanged |
| ReceiptDetails.SessionLocation | app/receipt-details.tsx:49-52 | a location exists exactly when there is a current session with user details, and it is the location recorded there |
| ReceiptDetails.GlCodeFor | app/receipt-details.tsx:48-63 | a name outside the catalogue keeps the previous code |
| ReceiptDetails.GlCodeOf | app/receipt-details.tsx:50-63 | no entry keeps the previous code; otherwise the code starts with the entry's code, is exactly it without a location or for the sentinel, and is followed by `-` and the location code otherwise |
| ReceiptDetails.GlCodeForCatalogue | app/receipt-details.tsx:48-63 | for each catalogue entry the code is `base-LOC` with a location, the sentinel verbatim for Misc. Expense, and `base` without a location |
| ReceiptDetails.GlCodeForUnknown | app/receipt-details.tsx:48-63 | a name outside the catalogue keeps the previous code |
| ReceiptDetails.GlCodeGasoline | app/receipt-details.tsx:56-58 | Gasoline at GR gets `6190-01-GR` |
| ReceiptDetails.GlCodeMisc | app/receipt-details.tsx:53-55 | Misc. Expense stays `Misc. Expense` at every location |
| ReceiptDetails.CategoryNameOk | app/receipt-details.tsx:45-46 | a category name is taken exactly when it is not all whitespace and its trimmed form has at most 100 characters |
| ReceiptDetails.SaveCheck | app/receipt-details.tsx:97-106 | missing information exactly when a field is empty; an invalid date exactly when all are filled and the date is not eight characters; accepted otherwise |
| ReceiptDetails.PrefillDateAsWritten | app/receipt-details.tsx:27 | as written, the date field receives the stored text unchanged |
| ReceiptDetails.UntouchedDateRejectedAsWritten | app/receipt-details.tsx:27 | as written, saving an edited receipt with an untouched date is refused as an invalid date |
| ReceiptDetails.EditUntouchedDate | app/receipt-details.tsx:23-106 | as written, opening a saved receipt and saving without touching the date is refused as an invalid date, and the store is left alone |
| ReceiptDetails.PrefillDate | app/receipt-details.tsx:27 | proposed fix of line 27: the loaded date is put in typed form, at most eight digits |
| ReceiptDetails.UntouchedDateKept | app/receipt-details.tsx:27 | with the proposed fix, an untouched date passes save and is stored again unchanged |
| ReceiptDetails.ReceiptForm.constructor | app/receipt-details.tsx:14-19 | every field starts empty |
| ReceiptDetails.ReceiptForm.Prefill | app/receipt-details.tsx:23-42 | in edit mode the found receipt's fields are loaded, the stored `MM/DD/YYYY` date unchanged, or nothing changes when none is found; otherwise the date becomes the default |
| ReceiptDetails.ReceiptForm.HandleCategorySelect | app/receipt-details.tsx:44-65 | a blank or over-long name changes nothing; otherwise the trimmed name is selected and the GL code is chosen from category and location |
| ReceiptDetails.ReceiptForm.FormatDate | app/receipt-details.tsx:67-75 | the date field becomes the formatted input, and no other field changes |
| ReceiptDetails.ReceiptForm.FormatCost | app/receipt-details.tsx:77-93 | the cost field becomes the formatted input, or stays when the keystroke is ignored |
| ReceiptDetails.ReceiptForm.ReceiptData | app/receipt-details.tsx:108-118 | the saved receipt has the route's id when there is one and the clock reading in decimal otherwise, so never an empty id; the route's image (empty when the route has none); the slashed form of the typed date, ten characters whose digits are the typed ones; and the form's description, purpose, category, GL code and cost and the given timestamp |
| ReceiptDetails.EditDropsImageAsWritten | app/receipt-details.tsx:110 | as written, editing a receipt with a photo through a route without an image stores the receipt with an empty image, so a receipt that was attached at submission no longer is |
| ReceiptDetails.EditPatch | app/receipt-details.tsx:110-121 | proposed fix of line 110: the update supplies every field of the saved receipt, except the image when it is empty |
| ReceiptDetails.EditKeepsImage | app/receipt-details.tsx:110-121 | with the proposed fix, the edited receipt takes every field of the form and keeps its stored photo when the route has none, so it is attached at submission exactly when it was before |
| ReceiptDetails.ReceiptForm.HandleSave | app/receipt-details.tsx:95-124 | a refused save leaves the store alone; otherwise edit mode performs the update step with the route's id and the whole receipt, else the add step |
| StartSession.SessionLabel | app/start-session.tsx:27-42 | the label is empty exactly when either trimmed name is empty |
| StartSession.SessionLabelShape | app/start-session.tsx:29-38 | for a real date the label is the two upper-cased initials, the two-digit month and day and the year, ten characters |
| StartSession.SessionLabelDate | app/start-session.tsx:29-38 | month, day and year read back from the label |
| StartSession.SessionLabelIgnoresBlanks | app/start-session.tsx:34-35 | blanks around either name do not change the label |
| StartSession.SessionLabelExample | app/start-session.tsx:29-38 | Jane Doe on 31 January 2024 gets `JD01312024` |
| StartSession.StartSessionForm.constructor | app/start-session.tsx:18-21 | blank names, location GR, no label |
| StartSession.StartSessionForm.SetFirstName | app/start-session.tsx:27-42 | the label is derived again from the new first name |
| StartSession.StartSessionForm.SetLastName | app/start-session.tsx:27-42 | the label is derived again from the new last name |
| StartSession.StartSessionForm.SelectLocation | app/start-session.tsx:121-124 | only the location changes; the label is not derived again |
| StartSession.StartSessionForm.HandleStartSession | app/start-session.tsx:44-60 | starts exactly when both trimmed names are non-empty; a blank name leaves the store alone; otherwise the store performs the start step with the trimmed names, the location and the label |

## Left out

- Storage backend failures: `AsyncStorage` is taken to succeed. A thrown read or write, and its logging, are not modelled.
- `JSON.stringify` and `JSON.parse` are parameters of the store (`encode`, `decode`). A parse failure is `None`. A parsed value that is not an array of sessions is not modelled.
- Totals: `parseFloat`, the sum and `toFixed(2)` are floating point. The report takes the total's text as a parameter.
- `toLocaleDateString` depends on locale and platform. The report takes the date's text as a parameter.
- File I/O (`copyAsync`, `writeAsStringAsync`) is modelled only by its outcomes: the set of failed copies and whether the summary was written.
- Deleting the temporary files after delivery is not modelled. Its failures are only logged and change no state.
- The mail composer, the share sheet and the URL opener are parameters. The `mailto:` text and its URL encoding are not modelled, because that branch cannot run.
- React's asynchronous state updates and stale closures are not modelled. Each operation is one step on the latest state, and the write to storage completes within that step.
- Submission.SubmitVerdict: an exception thrown while the report text is built (for example by the locale formatting) is not a modelled outcome.
- Text.ToUpperAscii: only ASCII letters are upper-cased. JavaScript's full Unicode `toUpperCase` (one character can become several) is not modelled.
- Strings are sequences of characters. JavaScript lengths count UTF-16 code units, so characters outside the Basic Multilingual Plane count once here.
- ReceiptTypes.Merge: an update object whose field is explicitly `undefined` (which overwrites in a JavaScript spread) is not distinguished from an absent field.
- Route parameters: an absent `receiptId` or `imageUri` is the empty string. Both are falsy in the source.
- Text.DecimalString: years are natural numbers. Negative years are not modelled.
- The camera screen, the submit screen, navigation, modals and styles are not part of this model.

## Findings

| source | as written | input that shows it | evidently intended | confidence | as-written member | corrected member |
|---|---|---|---|---|---|---|
| app/receipt-details.tsx:27 | edit mode loads the stored date `MM/DD/YYYY` (ten characters) into the date field, which holds typed digits | edit a saved receipt dated `01/31/2024`, change only the description, press save | the field shows the eight digits `01312024`, and the save succeeds with the date stored as before | high, not executed | ReceiptDetails.UntouchedDateRejectedAsWritten | ReceiptDetails.UntouchedDateKept |
| app/receipt-details.tsx:110 | the saved receipt takes its image from the route, and the home screen opens the edit route with the receipt id and the mode only (app/(tabs)/home.tsx:43), so the image is empty; the update then replaces every field | take a photo receipt, open it from the home screen, change only the description, press save, then submit the session | the stored photo is kept when the route carries none, and the receipt is still attached to the report | high, not executed | ReceiptDetails.EditDropsImageAsWritten | ReceiptDetails.EditKeepsImage |
