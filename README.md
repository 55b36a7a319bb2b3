# insightgpt-pro: upload tracker, project grid and Q&A session

This project models the three parts of the insightgpt-pro web front end that
hold logic, and proves what they promise.

- **Upload tracker** (`FileUploader`), in `upload.dfy`:
  - The extension allow-list: pdf, docx, doc and zip, compared after lower-casing the text after the last '.'.
  - The ordered list of upload entries.
  - The simulated upload that drives each entry through idle → uploading → progress in steps of 5 up to 100 → processing → complete.
  - The "Process Files" gate, the file-type icon and the status label.

  The list computations are pure functions. `NewEntries` is the `filteredFiles.map(...)` that builds the new entries. `UpdateById` is the `prev.map` patch of one entry, and `RemoveById` the `prev.filter` that drops one. The methods apply them to the old list; for example the updater `prev => [...prev, ...uploadFiles]` is `Add`, whose new list is the old one followed by `NewEntries`. The component state and the timers it registers are the class `UploadTracker`. Its methods are the event handlers (`AddFiles`, `Remove`) and the timer callbacks:
  - `Start`: the first statement of `simulateUpload`;
  - `Tick`: one firing of the 100 ms interval;
  - `Finish`: the 1500 ms timeout.

  Each timer is a field entry `timers[id]`, holding the interval's local progress counter, the pending timeout, or `Done`.
- **Project grid** (`DashboardGrid`), in `dashboard.dfy`: a pure function of the project list, the search term, the category and the sort key. It keeps the projects whose category matches and whose lower-cased title contains the lower-cased term. It then sorts them newest first or by title. The file also models the sort toggle, the "n document(s)" caption, the "No projects found" message and the mock project list.
- **Q&A session** (`QAInterface`), in `qa.dfy`:
  - The class `QASession` holds the question field, the loading flag, the append-only message log, the answers still scheduled, the per-message citation toggles and the selected document.
  - `Submit` is the immediate half of `handleSubmit`. `Complete` is its deferred half, the 1500 ms timeout that appends the canned answer with its two citations.
  - Pure functions cover the blank-question check (`trim`), the document lookup and the two toggle updaters.
- Shared helpers, in `text.dfy` and `wrappers.dfy`:
  - lower-casing, substring search, the title order and the decimal rendering of a count;
  - an `Option` type.

Each invariant is a `Valid()` predicate that every method keeps. The properties that span several steps are separate lemmas. Examples:
- `HistoryIsMonotone`: status and progress never go back over any run of steps.
- `RunUpload`: a started upload ends complete at 100%.
- `FilteredProjectsIdempotent`: filtering the grid's own output changes nothing.

## Model

| member | source | states |
|---|---|---|
| Text.ToLower | src/components/Upload/FileUploader.tsx:56 | `toLowerCase` keeps the length of the string |
| Text.ToLowerLeavesNoUpper | src/components/Dashboard/DashboardGrid.tsx:64 | after lower-casing, no upper-case letter is left |
| Text.ToLowerIdempotent | src/components/Dashboard/DashboardGrid.tsx:64 | lower-casing twice is lower-casing once |
| Text.ContainsIff | src/components/Dashboard/DashboardGrid.tsx:64 | `includes` holds iff some position of the title starts with the term |
| Text.ContainsEmpty | src/components/Dashboard/DashboardGrid.tsx:64 | every title includes the empty term |
| Text.LexLeTotal | src/components/Dashboard/DashboardGrid.tsx:70 | any two titles are ordered one way or the other |
| Text.LexLeTransitive | src/components/Dashboard/DashboardGrid.tsx:70 | the title order is transitive |
| Text.LexLeAntisymmetric | src/components/Dashboard/DashboardGrid.tsx:70 | titles ordered both ways are equal |
| Text.Contains | src/components/Dashboard/DashboardGrid.tsx:64 | `includes`; `ContainsIff` characterises it: true iff some position of the haystack starts with the needle |
| Text.LexLe | src/components/Dashboard/DashboardGrid.tsx:70 | the title order of `localeCompare`, by code point; `LexLeTotal`, `LexLeTransitive` and `LexLeAntisymmetric` make it a total order |
| Text.Decimal | src/components/Dashboard/DashboardGrid.tsx:174 | a count prints as a non-empty run of digits whose value is the count, with a leading '0' only for 0 |
| Upload.Extension | src/components/Upload/FileUploader.tsx:56 | the extension is a suffix of the name with no '.', and it is preceded by a '.' unless it is the whole name |
| Upload.ExtensionAfterLastDot | src/components/Upload/FileUploader.tsx:56 | the extension is exactly the text after the last '.' |
| Upload.ExtensionWithoutDot | src/components/Upload/FileUploader.tsx:56 | a name without '.' is its own extension |
| Upload.IsAccepted | src/components/Upload/FileUploader.tsx:55-58 | the filter's predicate: the lower-cased text after the last '.' is pdf, docx, doc or zip; the `Accepts…` and `Rejects…` lemmas and `IconAgreesWithAllowList` pin it down |
| Upload.AcceptsPdf | src/components/Upload/FileUploader.tsx:55-58 | "report.pdf" is accepted |
| Upload.AcceptsUpperCase | src/components/Upload/FileUploader.tsx:55-58 | "Contract.DOCX" is accepted, because the extension is lower-cased first |
| Upload.BareNameAccepted | src/components/Upload/FileUploader.tsx:55-58 | a name with no '.' is accepted iff the whole name, lower-cased, is pdf, docx, doc or zip |
| Upload.RejectsText | src/components/Upload/FileUploader.tsx:55-58 | "notes.txt" is dropped |
| Upload.RejectsDoubleExtension | src/components/Upload/FileUploader.tsx:55-58 | "report.pdf.exe" is dropped: only the last extension counts |
| Upload.RejectsTrailingDot | src/components/Upload/FileUploader.tsx:55-58 | "report." is dropped: its extension is empty |
| Upload.AcceptedFiles | src/components/Upload/FileUploader.tsx:55-58 | the filter never returns more files than it was given |
| Upload.AcceptedFilesCounts | src/components/Upload/FileUploader.tsx:55-58 | an accepted file keeps its number of occurrences; every other file is dropped |
| Upload.AcceptedFilesAppend | src/components/Upload/FileUploader.tsx:55-58 | the filter keeps input order: filtering a concatenation filters each part |
| Upload.FileTypeIcon | src/components/Upload/FileUploader.tsx:113-127 | the icon is the PDF icon iff the extension is pdf, the Word icon iff it is doc or docx, and the archive icon iff it is zip |
| Upload.IconAgreesWithAllowList | src/components/Upload/FileUploader.tsx:113-127 | a file gets a specific icon exactly when the allow-list accepts it |
| Upload.StatusText | src/components/Upload/FileUploader.tsx:129-144 | every one of the five statuses has a non-empty label |
| Upload.StatusTextInjective | src/components/Upload/FileUploader.tsx:129-144 | different statuses get different labels |
| Upload.NewEntries | src/components/Upload/FileUploader.tsx:61-66 | one entry per accepted file |
| Upload.Apply | src/components/Upload/FileUploader.tsx:78-103 | the spreads `{ ...f, status }` and `{ ...f, progress }`: one field replaced, the others kept; `StagedProgress` and `StagedStatus` state what repeated patches leave |
| Upload.UpdateById | src/components/Upload/FileUploader.tsx:78-80 | an update patches every entry with the id and leaves every other entry as it is, in place |
| Upload.UpdateAbsentId | src/components/Upload/FileUploader.tsx:101-103 | an update for an id no longer in the list leaves the list unchanged |
| Upload.RemoveById | src/components/Upload/FileUploader.tsx:109-111 | no entry with the id survives a removal |
| Upload.RemoveByIdCounts | src/components/Upload/FileUploader.tsx:109-111 | removal deletes the entries with the id and only those |
| Upload.RemoveKeepsDistinct | src/components/Upload/FileUploader.tsx:109-111 | removal keeps ids unique |
| Upload.RemoveKeepsEntries | src/components/Upload/FileUploader.tsx:109-111 | every surviving entry was in the list before |
| Upload.RemoveAt | src/components/Upload/FileUploader.tsx:109-111 | with unique ids, removing the entry at position k keeps the others in their original order |
| Upload.RemoveAbsent | src/components/Upload/FileUploader.tsx:109-111 | removing an absent id changes nothing |
| Upload.AnyIncomplete | src/components/Upload/FileUploader.tsx:241 | `some(f => f.status !== 'complete')` holds iff some entry is not complete |
| Upload.ProcessFilesButton | src/components/Upload/FileUploader.tsx:190-246 | the button is hidden iff the list is empty, disabled iff some entry is not complete, and enabled iff all entries are complete |
| Upload.Next | src/components/Upload/FileUploader.tsx:76-104 | the status order idle → uploading → processing → complete; `NextStepsUp` states that it moves one place up and stays at complete and error |
| Upload.Rank | src/components/Upload/FileUploader.tsx:76-104 | the position of a status in that order; `NextStepsUp` and `HistoryIsMonotone` show it never decreases |
| Upload.NextStepsUp | src/components/Upload/FileUploader.tsx:76-104 | each step moves idle, uploading and processing one place up the order and leaves complete and error where they are |
| Upload.HistoryIsMonotone | src/components/Upload/FileUploader.tsx:76-107 | over any run of steps an entry keeps its id, its status never moves back in idle → uploading → processing → complete, and its progress never decreases |
| Upload.ConsistentEntry | src/components/Upload/FileUploader.tsx:76-107 | an entry consistent with its timer has a progress that is a multiple of 5 in 0..100 and never has the error status; it is at 0 while idle and at 100 once processing or complete |
| Upload.Retime | src/components/Upload/FileUploader.tsx:76-107 | an update of one id that advances its entry by one step keeps the list consistent with the timers |
| Upload.AppendFresh | src/components/Upload/FileUploader.tsx:68 | appending idle entries with fresh ids keeps the ids unique and the list consistent |
| Upload.RemoveConsistent | src/components/Upload/FileUploader.tsx:109-111 | removal keeps the list consistent with the timers, which keep running |
| Upload.StartedTimers | src/components/Upload/FileUploader.tsx:71-73 | `addFiles` starts one timer per new id |
| Upload.BatchStartedLast | src/components/Upload/FileUploader.tsx:68-73 | once every new entry is started, the list is the old list plus the new entries, all uploading, and "Process Files" is disabled |
| Upload.UploadTracker.EntriesWellFormed | src/components/Upload/FileUploader.tsx:76-107 | in a valid tracker every progress is a multiple of 5 up to 100 and no entry has the error status |
| Upload.UploadTracker.constructor | src/components/Upload/FileUploader.tsx:17 | the tracker starts with no entries and no timers |
| Upload.UploadTracker.Add | src/components/Upload/FileUploader.tsx:61-68 | the accepted files become idle entries at 0%, appended after the existing ones in input order |
| Upload.UploadTracker.Start | src/components/Upload/FileUploader.tsx:76-84 | the entry of the id becomes uploading and its interval is registered with counter 0 |
| Upload.FreshAppendStepsForward | src/components/Upload/FileUploader.tsx:68 | appending entries with fresh ids leaves every existing entry as it was |
| Upload.UploadTracker.AddFiles | src/components/Upload/FileUploader.tsx:53-74 | the accepted files are appended and each is started: the new entries are uploading, one interval is registered per id, "Process Files" is disabled, and every entry already in the list is left as it was |
| Upload.UploadTracker.Tick | src/components/Upload/FileUploader.tsx:84-98 | the counter rises by 5 and the entry takes it as its progress; at 100 the interval is cleared, the entry becomes processing and the timeout is registered |
| Upload.UploadTracker.Finish | src/components/Upload/FileUploader.tsx:100-104 | the entry of the id becomes complete |
| Upload.UploadTracker.Remove | src/components/Upload/FileUploader.tsx:109-111 | the entries with the id are filtered out; the timers are left running |
| Upload.Staged | src/components/Upload/FileUploader.tsx:78-103 | the list with the entries of one id set to a given progress and status |
| Upload.StagedProgress | src/components/Upload/FileUploader.tsx:87-89 | a progress update overrides the progress of a staged entry |
| Upload.StagedStatus | src/components/Upload/FileUploader.tsx:95-97 | a status update overrides the status of a staged entry |
| Upload.StagedSame | src/components/Upload/FileUploader.tsx:78-103 | staging the values the entries already have changes nothing |
| Upload.StartedEntries | src/components/Upload/FileUploader.tsx:78-83 | the entries of an id whose interval has just been registered are uploading at 0% |
| Upload.RunUpload | src/components/Upload/FileUploader.tsx:76-107 | after 20 ticks and the timeout, a started upload's entries are complete at 100% and every other entry is as it was |
| Upload.ProgressTick | src/components/Upload/FileUploader.tsx:84-90 | a tick below 100 raises the staged progress and the interval counter by 5 and keeps the tracker valid |
| Upload.LastTick | src/components/Upload/FileUploader.tsx:84-104 | the tick that reaches 100 and then the timeout leave the entries of the id complete at 100% and its timer done |
| Upload.OnlyFirstAccepted | src/components/Upload/FileUploader.tsx:55-58 | of an accepted file and a rejected one, only the accepted file passes the filter |
| Upload.StartFirstOfTwo | src/components/Upload/FileUploader.tsx:53-74 | dropping an accepted and a rejected file on a fresh uploader gives one uploading entry and one interval |
| Upload.UploadOneReport | src/components/Upload/FileUploader.tsx:53-107 | "report.pdf" and "notes.txt" dropped: one entry, complete at 100%, and "Process Files" enabled |
| Dashboard.ToggleSort | src/components/Dashboard/DashboardGrid.tsx:135 | the sort button always changes the key |
| Dashboard.ToggleSortTwice | src/components/Dashboard/DashboardGrid.tsx:135 | toggling twice restores the key |
| Dashboard.Matches | src/components/Dashboard/DashboardGrid.tsx:62-65 | the filter's predicate; `ShownIff` states it: category 'all' or equal to the filter, and the lower-cased title contains the lower-cased term |
| Dashboard.FilterProjects | src/components/Dashboard/DashboardGrid.tsx:61-65 | the filter returns no more projects than it was given, all of them matching |
| Dashboard.FilterCounts | src/components/Dashboard/DashboardGrid.tsx:61-65 | a matching project keeps its number of occurrences; every other project is dropped |
| Dashboard.FilterKeepsMatching | src/components/Dashboard/DashboardGrid.tsx:61-65 | a list whose every project matches passes the filter unchanged |
| Dashboard.FilterIdempotent | src/components/Dashboard/DashboardGrid.tsx:61-65 | filtering a filtered list again with the same term and category changes nothing |
| Dashboard.EmptySearchMatchesAll | src/components/Dashboard/DashboardGrid.tsx:61-65 | an empty term under 'all' matches every project |
| Dashboard.Before | src/components/Dashboard/DashboardGrid.tsx:66-71 | the comparator: newer first for 'recent', title order for 'name'; `BeforeTotal` and `BeforeTransitive` make it a total preorder |
| Dashboard.BeforeTotal | src/components/Dashboard/DashboardGrid.tsx:66-71 | the comparator orders any two projects one way or the other |
| Dashboard.BeforeTransitive | src/components/Dashboard/DashboardGrid.tsx:66-71 | the comparator is transitive |
| Dashboard.PrecedesPermutation | src/components/Dashboard/DashboardGrid.tsx:66-72 | a project that may precede every element of a list may precede every element of any permutation of it |
| Dashboard.ConsSorted | src/components/Dashboard/DashboardGrid.tsx:66-72 | a project that may precede a sorted list, put in front of it, keeps the list sorted |
| Dashboard.TailSorted | src/components/Dashboard/DashboardGrid.tsx:66-72 | the tail of a sorted list is sorted and its head may precede all of it |
| Dashboard.Insert | src/components/Dashboard/DashboardGrid.tsx:66-72 | inserting into a sorted list keeps it sorted and adds exactly that project |
| Dashboard.Sort | src/components/Dashboard/DashboardGrid.tsx:66-72 | the result is ordered (newest first for 'recent', by title for 'name') and is a permutation of the input |
| Dashboard.SortSorted | src/components/Dashboard/DashboardGrid.tsx:66-72 | sorting an ordered list leaves it unchanged |
| Dashboard.FilteredProjects | src/components/Dashboard/DashboardGrid.tsx:61-72 | the grid is ordered by the sort key, holds every matching project as often as the input does and nothing else, and every shown project matches |
| Dashboard.ShownIff | src/components/Dashboard/DashboardGrid.tsx:61-72 | a project is shown iff it is in the list, its category is 'all' or the filter, and its lower-cased title contains the lower-cased term |
| Dashboard.FilteredProjectsIdempotent | src/components/Dashboard/DashboardGrid.tsx:61-72 | recomputing the grid from its own output gives the same grid |
| Dashboard.EmptySearchKeepsAll | src/components/Dashboard/DashboardGrid.tsx:61-72 | with no term and 'all', the grid is a permutation of every project |
| Dashboard.ShowsNoProjectsMessage | src/components/Dashboard/DashboardGrid.tsx:160-189 | "No projects found" is shown iff no project matches |
| Dashboard.DocumentCountLabel | src/components/Dashboard/DashboardGrid.tsx:174 | the caption starts with the decimal digits of the count and ends in 's' iff the count is not 1 |
| Dashboard.InitialView | src/components/Dashboard/DashboardGrid.tsx:7-72 | with no search, 'all' and 'recent', the grid lists the mock projects in their declared order |
| Dashboard.SearchIgnoresCase | src/components/Dashboard/DashboardGrid.tsx:61-65 | "REPORT" finds the annual financial report under 'all' and not under 'legal' |
| QA.Trim | src/components/Project/QAInterface.tsx:47 | `trim`: `TrimStart` then `TrimEnd`, so no leading or trailing whitespace is left and only whitespace is dropped |
| QA.IsBlank | src/components/Project/QAInterface.tsx:47 | `!question.trim()`; `BlankIffAllWhitespace` states it: every character is whitespace |
| QA.TrimStart | src/components/Project/QAInterface.tsx:47 | the result is a suffix, everything dropped is whitespace, and it does not start with whitespace |
| QA.TrimEnd | src/components/Project/QAInterface.tsx:47 | the result is a prefix, everything dropped is whitespace, and it does not end with whitespace |
| QA.BlankIffAllWhitespace | src/components/Project/QAInterface.tsx:47 | a question trims to the empty string iff all its characters are whitespace |
| QA.StartsWithText | src/components/Project/QAInterface.tsx:47 | a question whose first character is not whitespace is not blank |
| QA.SubmitDisabled | src/components/Project/QAInterface.tsx:261 | the send button is disabled iff loading or the question is all whitespace |
| QA.AnswerContent | src/components/Project/QAInterface.tsx:65 | the answer quotes the question verbatim at a fixed position and contains it |
| QA.AnswerMessage | src/components/Project/QAInterface.tsx:62-81 | the answer message: kind answer, the content of `AnswerContent` and the two citations of `AnswerCitationsResolve`; `QASession.Complete` appends it |
| QA.AnswerContentInjective | src/components/Project/QAInterface.tsx:65 | different questions get different answers |
| QA.FindDocument | src/components/Project/QAInterface.tsx:199 | `find` returns the first document with the id, and nothing iff no document has it |
| QA.DocumentName | src/components/Project/QAInterface.tsx:38-42 | a citation's document name is defined iff a listed document has that id, and it is that document's name |
| QA.AnswerCitationsResolve | src/components/Project/QAInterface.tsx:67-80 | the two citations name "Annual Report 2022.pdf" at page 24 and "Financial Statement.docx" at page 3 |
| QA.IsShown | src/components/Project/QAInterface.tsx:98 | the read `prev[messageId]`, an absent key counting as hidden; `ToggleVisibility` and `ToggleVisibilityTwice` state how it changes |
| QA.ToggleVisibility | src/components/Project/QAInterface.tsx:95-100 | the flag of the message flips, an absent key counting as hidden, and every other flag is kept |
| QA.ToggleVisibilityTwice | src/components/Project/QAInterface.tsx:95-100 | toggling twice restores every message's visibility |
| QA.ToggleDocument | src/components/Project/QAInterface.tsx:102-104 | the selection is cleared iff the document was the active one, and otherwise becomes that document |
| QA.ToggleDocumentTwice | src/components/Project/QAInterface.tsx:102-104 | toggling twice restores no selection or that document, and clears any other selection |
| QA.CountKindAppend | src/components/Project/QAInterface.tsx:57 | appending a message adds one to the count of its kind |
| QA.AppendFreshId | src/components/Project/QAInterface.tsx:51 | appending a message with a fresh id keeps message ids unique |
| QA.LogMessage | src/components/Project/QAInterface.tsx:57-83 | logging a question while scheduling its answer, or an answer while retiring one, keeps ids unique and keeps one more question than answers per scheduled answer |
| QA.QASession.constructor | src/components/Project/QAInterface.tsx:30-35 | the session starts with an empty question and log, not loading, with no toggles and no document selected |
| QA.QASession.SetQuestion | src/components/Project/QAInterface.tsx:256 | typing replaces the question and nothing else |
| QA.QASession.Submit | src/components/Project/QAInterface.tsx:44-59 | a blank question changes nothing; otherwise exactly one question message, holding the untrimmed text, is appended, loading starts, the answer is scheduled, and the send button is then disabled |
| QA.QASession.Ask | src/components/Project/QAInterface.tsx:50-59 | past the blank check: exactly one question message with the untrimmed text is appended, loading starts and the question is scheduled for an answer |
| QA.QASession.Complete | src/components/Project/QAInterface.tsx:61-86 | exactly one answer is appended; it quotes the question captured at submission and carries the two citations; the question is cleared and loading stops |
| QA.QASession.ToggleCitations | src/components/Project/QAInterface.tsx:95-100 | only the citation flags change, as `ToggleVisibility` says |
| QA.QASession.SelectDocument | src/components/Project/QAInterface.tsx:102-104 | only the selection changes, as `ToggleDocument` says |
| QA.QASession.CloseDocument | src/components/Project/QAInterface.tsx:275 | the close button clears the selection |
| QA.RevenueQuestion | src/components/Project/QAInterface.tsx:44-86 | asking "What is the revenue growth?" logs the question, then an answer that quotes it and cites doc1 page 24 and doc2 page 3 |

## Left out

- Timers:
  - `setInterval` and `setTimeout` are step methods the caller runs in any order: `UploadTracker.Start`, `Tick` and `Finish`, and `QASession.Complete`. The 100 ms, 1500 ms and 2000 ms delays are not modelled.
  - Timers of different files interleave freely.
- Upload.UploadTracker.Tick: requires that the id's interval is registered, and Finish requires that its timeout is. The browser fires only registered callbacks.
- Removal does not cancel timers, as in the component. A timer that later fires for a removed id leaves the list unchanged (`UpdateAbsentId`).
- Ids and timestamps are parameters:
  - `crypto.randomUUID()` becomes a fresh id that methods take as a parameter. Freshness is a precondition.
  - `new Date()` becomes the integer parameter `now`.
- Text.ToLower: lower-cases ASCII letters only. For the allow-list this is exact, because no other character lower-cases to a single letter of "pdf", "docx", "doc" or "zip". For the title search it ignores non-ASCII case folding.
- Dashboard.Before:
  - Compares titles by code point, not by the locale rules of `localeCompare`.
  - Compares `lastUpdated` as an integer yyyymmddhhmm, not a parsed `Date`.
- Dashboard.Sort: an insertion sort. It is proved ordered and a permutation. The order of equal keys (stability) is not stated.
- Upload.StatusText: the `default: ''` branch of `getStatusText` is unreachable over the five statuses and is not modelled.
- QA.QASession.Submit: like `handleSubmit`, it does not check the loading flag. Only the disabled controls stop a second question while loading: the field's `disabled` is the flag itself, and `Submit` ensures that `SubmitDisabled` holds once a question is sent.
- Rendering:
  - The file size in MB (`toFixed`), `formatDate` and `toLocaleTimeString` are display formatting over floating point and locale data.
  - All JSX, the SVG and lucide icons, `getProjectTypeIcon` and `getDocumentIcon` only render.
  - The drag highlight state (`isDragging`) and the hidden file input only render.
- The clipboard copy and the `isCopied` flag (QAInterface.tsx:89-93) write to the system clipboard, which is I/O.
- The other files of the repository are not part of this model: the login form, the navigation bar, the layout, the pages and the button component. They are authentication glue and layout.
