# modular-ai-benchmark, modelled in Dafny

modular-ai-benchmark is a platform for benchmarking code-writing language models. It has three parts:

- **Importer.** A Python script converts public benchmarks (HumanEval, MBPP, HumanEval-Java) into *task sources*: YAML files of tasks.
- **Java backend.** It filters each task against an *execution config*, renders a prompt per allowed language, and asks every configured model for a solution. It runs the matching evaluators on each response, counts per-source progress for the run, and prepares Java solutions and tests for compilation.
- **React console.** It edits configs and task sources with a draft overlay of unsaved changes. It aggregates result documents into per-criteria statistics, and it lists, filters and pages result rows.

The project models the bookkeeping at the heart of these three parts. On the backend: the filter chains, the (language, model) enumeration and the progress counting. On the console: the single three-way classification of a criteria result (error, else skipped for a negative score, else complete) and every view built from it, and the draft store and the editors' dirty tracking. Also: the code-preparation rewrites and the importer's converters.

Each source file is one Dafny module:

- Code that is expression-shaped becomes functions with lemmas.
- Loops become methods proved against a specification function.
- Objects whose fields change become classes. These are the progress tracker, the draft store, the editors and the result table.

Everything the code calls and cannot be seen here becomes a function-typed parameter:

- YAML parsing and printing;
- model calls, evaluators and template rendering;
- regular-expression rewrites;
- file I/O results.

Each module's header comment says which parameters it takes.

Shared modules:

- `Wrappers`: `Option` and `Result`.
- `Seqs`: the order-preserving filter.
- `Text`: substring search, ASCII lower-casing and literal replace-all.
- `YamlValue`: a parsed YAML/JSON value with JavaScript truthiness.
- `ResultRecords`: the result records and the one classifier.
- `BenchConfig`: the backend's config and task records.

## Model

| member | source | states |
|---|---|---|
| AppShell.MarkedMeaning | frontend/src/App.tsx:16-26 | after a report the file is in the modified set exactly when it was reported modified, and every other file keeps its mark |
| AppShell.MarkedIdempotent | frontend/src/App.tsx:16-26 | reporting the same state for a file twice has the effect of reporting it once |
| AppShell.MarkedLastWins | frontend/src/App.tsx:16-26 | of two reports for the same file, the later one decides |
| AppShell.IsModifiedFor | frontend/src/App.tsx:123 | the editor's `isModified` prop as defined; MarkedMeaning and MarkedLastWins say what the set holds: with no file or an empty file name selected the editor is never told "modified"; with a named file selected it is told so exactly when that name is in the modified set |
| AppShell.App.constructor | frontend/src/App.tsx:12-14 | the shell starts on the execution-config section with no file selected and nothing modified |
| AppShell.App.HandleFileModified | frontend/src/App.tsx:16-26 | the file is added to or removed from the modified set and nothing else changes |
| AppShell.App.SetActiveSection | frontend/src/App.tsx:70-105 | a section header click changes only the active section; the selection and the modified set stay |
| AppShell.App.SelectFile | frontend/src/App.tsx:79 | selecting a file changes only the selection |
| EvaluatorsRegistry.GetEvaluators | src/main/java/org/donutellko/modularbench/evaluator/EvaluatorsRegistry.java:15-19 | the evaluators returned are exactly the registered ones that match the config and task, in registration order (a subsequence) |
| EvaluatorsRegistry.GetEvaluatorsCounts | src/main/java/org/donutellko/modularbench/evaluator/EvaluatorsRegistry.java:15-19 | a matching evaluator appears as often as it is registered; one that does not match never appears |
| LlmClientRegistry.FirstOffering | src/main/java/org/donutellko/modularbench/llm/LLMClientRegistry.java:15-16 | the index found offers the model and no earlier client does; none is found exactly when no client offers it |
| LlmClientRegistry.GetForModel | src/main/java/org/donutellko/modularbench/llm/LLMClientRegistry.java:13-18 | the exception "Provider not found for: " plus the name is thrown exactly when no client offers the model; otherwise the client returned offers it |
| LlmClientRegistry.GetForModelIsFirst | src/main/java/org/donutellko/modularbench/llm/LLMClientRegistry.java:15-16 | the client returned is a registered one with no earlier client offering the model |
| LlmClientRegistry.LaterClientsOnlyFillGaps | src/main/java/org/donutellko/modularbench/llm/LLMClientRegistry.java:15-16 | appending clients never changes which client serves a model an existing client offers; for other models the first appended client offering it is found |
| LlmClientRegistry.LaterOffset | src/main/java/org/donutellko/modularbench/llm/LLMClientRegistry.java:15-16 | searching the appended clients inside the joined list finds the same client, shifted by the length of the earlier list |
| LlmClientRegistry.EarlierClientWins | src/main/java/org/donutellko/modularbench/llm/LLMClientRegistry.java:13-18 | with clients appended, a model already served gets the same answer, and an unserved one gets the appended clients' answer |
| ModifiedFilesContext.Lookup | frontend/src/context/ModifiedFilesContext.tsx:19-21 | a draft is found exactly when the directory has a draft for that file, and it is that draft; otherwise null (inherited object keys aside, see Left out) |
| ModifiedFilesContext.LookupAfterStore | frontend/src/context/ModifiedFilesContext.tsx:19-31 | reading a file right after storing its draft gives that draft |
| ModifiedFilesContext.StoreFrame | frontend/src/context/ModifiedFilesContext.tsx:23-31 | storing a draft leaves every other file's draft, in any directory, as it was |
| ModifiedFilesContext.StoreIdempotent | frontend/src/context/ModifiedFilesContext.tsx:23-31 | storing the same draft twice is storing it once |
| ModifiedFilesContext.LookupAfterClear | frontend/src/context/ModifiedFilesContext.tsx:19-44 | after a clear the file has no draft |
| ModifiedFilesContext.ClearFrame | frontend/src/context/ModifiedFilesContext.tsx:33-44 | clearing leaves every other draft as it was, and clearing in a directory without drafts changes nothing |
| ModifiedFilesContext.NoEmptyDirectoryKept | frontend/src/context/ModifiedFilesContext.tsx:23-44 | both updates keep the overlay free of directories without drafts |
| ModifiedFilesContext.DirectoryDrafts.constructor | frontend/src/context/ModifiedFilesContext.tsx:26-29 | a directory's record holds the given drafts |
| ModifiedFilesContext.DirectoryDrafts.Delete | frontend/src/context/ModifiedFilesContext.tsx:37 | the in-place delete removes only that file from the record |
| ModifiedFilesContext.Overlay.constructor | frontend/src/context/ModifiedFilesContext.tsx:17 | the provider starts with no drafts |
| ModifiedFilesContext.Overlay.GetModifiedContent | frontend/src/context/ModifiedFilesContext.tsx:19-21 | the lookup on the records agrees with the overlay's value-level reading |
| ModifiedFilesContext.Overlay.SetModifiedContent | frontend/src/context/ModifiedFilesContext.tsx:23-31 | the overlay becomes the stored one, the directory gets a new record, and each directory keeps its own record |
| ModifiedFilesContext.Overlay.ClearModifiedContent | frontend/src/context/ModifiedFilesContext.tsx:33-44 | the overlay becomes the cleared one; the deletion happens in the record the previous state also holds, so that state sees it too |
| FileList.LoadedFiles | frontend/src/components/FileList.tsx:20-28 | an array listing becomes the file list; a failed or non-array listing gives an empty list |
| FileList.Marker | frontend/src/components/FileList.tsx:104 | the `*` marker is shown exactly when the file has unsaved changes |
| FileList.FileListView.constructor | frontend/src/components/FileList.tsx:13-14 | a list starts with no files and nothing ticked |
| FileList.FileListView.LoadFiles | frontend/src/components/FileList.tsx:20-28 | the files become the loaded ones; the ticked set is kept |
| FileList.FileListView.HandleCheckboxChange | frontend/src/components/FileList.tsx:30-41 | ticking adds the file to the selection, unticking removes it, and the other files and the listing stay |
| FileList.SendDeletes | frontend/src/components/FileList.tsx:56-58 | each request is for a distinct ticked file and every request before the last resolved; the loop stopped early exactly when some ticked file's delete is rejected, and then the last request is the rejected one; otherwise every ticked file got exactly one request |
| FileList.FileListView.HandleDelete | frontend/src/components/FileList.tsx:52-62 | with nothing ticked or no confirmation nothing happens; otherwise the delete requests go out one ticked file at a time, and a rejected one ends the handler with the selection and the list unchanged, while if all resolve every ticked file got one request, the selection is emptied and the list is reloaded |
| FileList.FileListView.HandleDownload | frontend/src/components/FileList.tsx:64-84 | exactly the ticked files without unsaved changes are downloaded, each once; when the button is enabled that is every ticked file |
| YamlEditor.Editor.constructor | frontend/src/components/YamlEditor.tsx:17-18 | an editor starts with no file and empty text and baseline |
| YamlEditor.Editor.SelectAsWritten | frontend/src/components/YamlEditor.tsx:22-41 | as written: a file with a draft shows the draft and keeps the previous file's baseline; a file without one shows the read text as text and baseline when the read resolves, and keeps the previous file's text and baseline when it rejects; no file empties both |
| YamlEditor.Editor.Select | frontend/src/components/YamlEditor.tsx:22-41 | corrected: the draft is shown when there is one; a resolved read always makes the file's saved text the baseline, a rejected one leaves text and baseline as they were, and both are empty without a file |
| YamlEditor.Editor.HandleSave | frontend/src/components/YamlEditor.tsx:43-49 | after a resolved write the text becomes the baseline, the draft is cleared and the file reported unmodified, so Save is disabled; a rejected write, or no file, changes none of the three |
| YamlEditor.Editor.FileDraft | frontend/src/components/YamlEditor.tsx:53-55 | the new text is shown and filed as the file's draft, the file is reported with the given flag, and the baseline stays |
| YamlEditor.Editor.RawChange | frontend/src/components/YamlEditor.tsx:116-121 | an empty or missing value changes nothing; otherwise the draft is filed and the file is reported modified exactly when the text differs from the baseline (the saved text, when the baseline is right) |
| YamlEditor.Editor.FormChange | frontend/src/components/YamlEditor.tsx:95-108 | a form edit files the draft and always reports the file modified, so Save is enabled |
| YamlEditor.Editor.HandleContentChange | frontend/src/components/YamlEditor.tsx:51-57 | the handler is defined but no element of the component calls it; a missing value counts as empty; with a file the draft is filed and modified means "differs from the baseline"; without one only the text changes |
| YamlEditor.StaleBaselineAfterDraftSelect | frontend/src/components/YamlEditor.tsx:22-29 | a sequence of calls on the as-written select after which a draft differs from the saved file, yet Save is disabled |
| TaskSourceEditor.ParseWithDefaults | frontend/src/components/TaskSourceEditor.tsx:30-45 | a parse error gives version '1.0', name '' and no tasks; otherwise a falsy version or name is replaced by its default and a non-array task list by no tasks |
| TaskSourceEditor.FileValue | frontend/src/components/TaskSourceEditor.tsx:59 | what is serialized is an object with exactly the version, name and task list |
| TaskSourceEditor.ParseKeepsWellFormed | frontend/src/components/TaskSourceEditor.tsx:30-37 | a document with a truthy version and name, a task list and nothing else survives parsing with defaults unchanged |
| TaskSourceEditor.WithField | frontend/src/components/TaskSourceEditor.tsx:53-56 | the spread task holds the new value under the field and every other field as before |
| TaskSourceEditor.WithoutIndexRemovesOne | frontend/src/components/TaskSourceEditor.tsx:141 | deleting at an index in range removes exactly that task and keeps the order of the rest; another index removes nothing |
| TaskSourceEditor.Editor.constructor | frontend/src/components/TaskSourceEditor.tsx:27-28 | nothing is parsed and no task is being edited at first |
| TaskSourceEditor.Editor.Parse | frontend/src/components/TaskSourceEditor.tsx:30-46 | the parsed content becomes the defaulted parse of the current text |
| TaskSourceEditor.Editor.UpdateTask | frontend/src/components/TaskSourceEditor.tsx:48-60 | before the first parse nothing happens and nothing is emitted; otherwise only the field of the indexed task changes and the new file's serialization is emitted |
| TaskSourceEditor.Editor.HandleTaskUpdate | frontend/src/components/TaskSourceEditor.tsx:62-71 | only the indexed task is replaced, and the new file's serialization is emitted; nothing happens before the first parse |
| TaskSourceEditor.Editor.AddTask | frontend/src/components/TaskSourceEditor.tsx:80-97 | the default task is appended after all others and the new file's serialization is emitted |
| TaskSourceEditor.Editor.DeleteTask | frontend/src/components/TaskSourceEditor.tsx:140-145 | the task list loses the row's task and the new file's serialization is emitted |
| TaskSourceEditor.Editor.OpenTask | frontend/src/components/TaskSourceEditor.tsx:138 | the pop-up opens on the row's index and task, and the content is unchanged |
| TaskSourceEditor.Editor.CloseTask | frontend/src/components/TaskSourceEditor.tsx:155 | closing the pop-up clears the edited task only |
| TaskSourceEditor.UpdateTouchesOneField | frontend/src/components/TaskSourceEditor.tsx:51-56 | the list keeps its length, every other task is unchanged, and the updated task keeps every other field |
| TaskSourceEditor.AddAppendsOne | frontend/src/components/TaskSourceEditor.tsx:80-94 | Add Task makes the list one longer with the old tasks first and the default "New Task" (difficulty easy) last |
| TaskDetailModal.UpdatedTask | frontend/src/components/TaskDetailModal.tsx:22-34 | a write that goes through gives an object task (with an empty path the key written is "undefined") |
| TaskDetailModal.SetPathReaches | frontend/src/components/TaskDetailModal.tsx:22-34 | after a successful write with a non-empty path, following the path reaches the value |
| TaskDetailModal.SetPathIntermediates | frontend/src/components/TaskDetailModal.tsx:26-31 | after a successful write every proper prefix of the path leads to an object, so missing or falsy intermediates have become objects |
| TaskDetailModal.SetPathSiblings | frontend/src/components/TaskDetailModal.tsx:24-32 | every read along a path that leaves the written path at some level returns what it did before, so sibling keys at every level are kept |
| TaskDetailModal.SetPathFails | frontend/src/components/TaskDetailModal.tsx:26-32 | the write throws exactly when some proper prefix of the path leads to a truthy value that is not an object |
| TaskDetailModal.ComputeUpdate | frontend/src/components/TaskDetailModal.tsx:23-34 | the loop's descent and leaf write compute exactly the written task, or the TypeError |
| TaskDetailModal.Modal.constructor | frontend/src/components/TaskDetailModal.tsx:16-20 | the pop-up starts on the given task with the code editor closed, empty and with no path |
| TaskDetailModal.Modal.UpdateField | frontend/src/components/TaskDetailModal.tsx:22-35 | the local task becomes the written task; a write that throws escapes React's render uncaught, so the pop-up is marked crashed with its task unchanged; the code editor is untouched |
| TaskDetailModal.Modal.OpenCodeEditor | frontend/src/components/TaskDetailModal.tsx:42-46 | the path and text are recorded and the editor opens; the task is untouched |
| TaskDetailModal.Modal.SaveCodeEditorContent | frontend/src/components/TaskDetailModal.tsx:48-51 | the editor's text is written at the recorded path and the editor closes; a write that throws crashes the pop-up, as `updateField` does |
| TaskDetailModal.Modal.HandleSave | frontend/src/components/TaskDetailModal.tsx:37-40 | the local task is handed back with the pop-up's original index |
| TaskDetailModal.CodeEditorRoundTrip | frontend/src/components/TaskDetailModal.tsx:42-51 | saving the code editor on a non-empty path puts its text where a read of that path finds it |
| ExecConfigForm.UpdateYamlField | frontend/src/services/yaml.ts:23-31 | the update goes through exactly when the content parses to an object or an array; an object document is written with that one field set, and an array document, which takes the field as a property the serializer drops, is written as it was |
| ExecConfigForm.UpdateYamlFieldOnlyField | frontend/src/services/yaml.ts:28-30 | the document written differs from the parsed one in the given field only |
| ExecConfigForm.FindIndex | frontend/src/components/ExecConfigForm.tsx:37 | the index found is the first item with that name; none means no item has it; a null item met before a match throws |
| ExecConfigForm.Switched | frontend/src/components/ExecConfigForm.tsx:39 | the list keeps its length and every other item; the switched item has the new `enabled` and its other fields |
| ExecConfigForm.SwitchChange | frontend/src/components/ExecConfigForm.tsx:31-43 | nothing is emitted when the section is not a list or no item has the name; whatever is emitted is the field update with the first such item switched |
| ExecConfigForm.SwitchChangeFirstMatch | frontend/src/components/ExecConfigForm.tsx:36-41 | when the name is on the list and the content parses to an object, exactly the first item with that name is switched and the result is emitted |
| ExecConfigForm.ArrayChange | frontend/src/components/ExecConfigForm.tsx:26-29 | the change is emitted exactly when the content parses to an object or an array, and for an object the whole field is replaced by the tag values |
| ExecConfigForm.Strings | frontend/src/components/ExecConfigForm.tsx:26-29 | the values become string scalars, one per value, in order |
| ExecConfigForm.Form.constructor | frontend/src/components/ExecConfigForm.tsx:13 | the form starts without a config |
| ExecConfigForm.Form.ParseEffect | frontend/src/components/ExecConfigForm.tsx:15-24 | a parse failure keeps the previous config, and whether the form renders; anything that parses replaces it, and the form renders exactly when it is truthy |
| StatusDialog.EveryDone | frontend/src/components/StatusDialog.tsx:33-35 | true exactly when every listed source has `completed + error + filtered_out == total` |
| StatusDialog.AllDone | frontend/src/components/StatusDialog.tsx:33-36 | the run is done exactly when the source list is present and every source in it is done; an absent list is not done |
| StatusDialog.Poller.constructor | frontend/src/components/StatusDialog.tsx:21-26 | the dialog starts with no rows, not complete, and polls exactly when it is open |
| StatusDialog.Poller.Effect | frontend/src/components/StatusDialog.tsx:24-47 | after the effect an interval runs exactly when the dialog is open and the run not complete; the cleanup clears the previous one |
| StatusDialog.Poller.SetOpen | frontend/src/components/StatusDialog.tsx:25-45 | a closed dialog does not poll; an open one polls until the run is complete |
| StatusDialog.Poller.Tick | frontend/src/components/StatusDialog.tsx:26-43 | a failed read or parse is only logged and polling goes on; otherwise the list (empty when absent) is shown, and the run is complete and polling stops exactly when every source is done |
| StatusDialog.RenderRow | frontend/src/components/StatusDialog.tsx:49-80 | no row exactly when `total - filtered_out` is 0; otherwise the label is `completed + error` over that total, only positive segments are kept, and the bar takes the first kept intent |
| StatusDialog.RatioPositive | frontend/src/components/StatusDialog.tsx:53-66 | over a positive total a count's ratio is positive exactly when the count is |
| StatusDialog.SegmentsOfPositiveTotal | frontend/src/components/StatusDialog.tsx:53-66 | with a positive effective total a segment is kept exactly when its count is positive, in the order success, primary, danger |
| StatusDialog.BarIntentOfPositiveTotal | frontend/src/components/StatusDialog.tsx:53-80 | the bar is success when anything completed, else primary when anything is running, else danger when anything failed, else it has no intent |
| ResultRecords.Classify | frontend/src/components/BenchmarkResults/CriteriaStatsTable.tsx:88-96 | a result is errored exactly when it has an error text, skipped exactly when it has none and a negative score, complete exactly otherwise |
| CriteriaStatsTable.EvalEntries | frontend/src/components/BenchmarkResults/CriteriaStatsTable.tsx:71-103 | one entry per evaluation result of the attempt, in order, each carrying the task name and the attempt's LLM response |
| CriteriaStatsTable.ComputeCriteriaStats | frontend/src/components/BenchmarkResults/CriteriaStatsTable.tsx:63-117 | the memoised table is one finished bucket per criteria of the selected model's evaluation results, in first-appearance order |
| CriteriaStatsTable.FoldResults | frontend/src/components/BenchmarkResults/CriteriaStatsTable.tsx:66-107 | after the outer loop the keys and buckets are those of every contributing entry in traversal order |
| CriteriaStatsTable.FoldRecord | frontend/src/components/BenchmarkResults/CriteriaStatsTable.tsx:69-106 | one record's attempts add exactly the selected model's entries to the buckets, and nothing for other models |
| CriteriaStatsTable.FoldAttempt | frontend/src/components/BenchmarkResults/CriteriaStatsTable.tsx:71-104 | one attempt's evaluation results are added to the buckets in order |
| CriteriaStatsTable.FoldEntry | frontend/src/components/BenchmarkResults/CriteriaStatsTable.tsx:72-103 | an entry with a new criteria opens an empty bucket at the end of the key order; the entry is then counted and appended to its own bucket only |
| CriteriaStatsTable.FinishAverages | frontend/src/components/BenchmarkResults/CriteriaStatsTable.tsx:110-114 | every bucket keeps its keys and has its sum divided by its complete count when that count is positive |
| CriteriaStatsTable.RunningSnoc | frontend/src/components/BenchmarkResults/CriteriaStatsTable.tsx:85-103 | appending an entry changes only its own criteria's running bucket |
| CriteriaStatsTable.AverageOfRunning | frontend/src/components/BenchmarkResults/CriteriaStatsTable.tsx:110-114 | finishing a running bucket gives the mean of its complete scores |
| CriteriaStatsTable.NoCompleteNoSum | frontend/src/components/BenchmarkResults/CriteriaStatsTable.tsx:92-111 | with no complete result the running sum stays 0, so an unfinished average shows 0 |
| CriteriaStatsTable.BucketIsFilter | frontend/src/components/BenchmarkResults/CriteriaStatsTable.tsx:85-103 | a bucket's results are exactly the entries with its criteria, in traversal order |
| CriteriaStatsTable.CountsAreTabs | frontend/src/components/BenchmarkResults/CriteriaStatsTable.tsx:88-96 | the three counters are the sizes of the status browser's three tabs, and the sum is the sum of the complete tab's scores |
| CriteriaStatsTable.CountsSum | frontend/src/components/BenchmarkResults/CriteriaStatsTable.tsx:88-96 | every entry is counted exactly once: complete plus skipped plus errors is the bucket size |
| CriteriaStatsTable.KeysMembership | frontend/src/components/BenchmarkResults/CriteriaStatsTable.tsx:74-83 | a criteria has a row exactly when some contributing entry has it |
| CriteriaStatsTable.KeysDistinct | frontend/src/components/BenchmarkResults/CriteriaStatsTable.tsx:74-83 | no criteria has two rows |
| CriteriaStatsTable.KeysFirstAppearance | frontend/src/components/BenchmarkResults/CriteriaStatsTable.tsx:74-83 | rows are in the order in which their criteria first appear |
| CriteriaStatsTable.ContributingFromModel | frontend/src/components/BenchmarkResults/CriteriaStatsTable.tsx:66-71 | every contributing entry comes from an attempt by the selected model, and every evaluation result of such an attempt contributes |
| CriteriaStatsTable.AttemptsEntriesFromModel | frontend/src/components/BenchmarkResults/CriteriaStatsTable.tsx:69-71 | one record's contributing entries are exactly the evaluation results of the selected model's attempts |
| CriteriaStatsTable.BucketFacts | frontend/src/components/BenchmarkResults/CriteriaStatsTable.tsx:85-116 | each row's results are its criteria's entries in order; its counters add up to its size and equal the tab sizes; its average is the complete scores' mean, or 0 when none is complete |
| CriteriaStatsTable.FinalFacts | frontend/src/components/BenchmarkResults/CriteriaStatsTable.tsx:85-114 | the same facts for the finished bucket of any criteria |
| CriteriaStatsTable.BucketIsSubsequence | frontend/src/components/BenchmarkResults/CriteriaStatsTable.tsx:99-103 | a bucket keeps the traversal order of the entries |
| CriteriaStatsTable.BucketKeys | frontend/src/components/BenchmarkResults/CriteriaStatsTable.tsx:74-83 | row t is for the t-th key, rows have distinct criteria, and every contributing entry's criteria has a row |
| CriteriaStatsTable.EntriesForCriteria | frontend/src/components/BenchmarkResults/CriteriaStatsTable.tsx:194 | the status browser gets the first row's results for the selected criteria, or nothing when no row has it |
| CriteriaStatsTable.EntriesForCriteriaAt | frontend/src/components/BenchmarkResults/CriteriaStatsTable.tsx:194 | the browser gets the results of the first row with the selected criteria |
| CriteriaStatsTable.BrowserGetsBucket | frontend/src/components/BenchmarkResults/CriteriaStatsTable.tsx:186-196 | the status browser receives exactly the contributing entries with the selected criteria, in order |
| CriteriaStatsTable.IgnoredScoresIrrelevant | frontend/src/components/BenchmarkResults/CriteriaStatsTable.tsx:88-96 | the scores of errored and skipped results have no effect on any row's criteria, counters or average |
| CriteriaStatsTable.KeysAlike | frontend/src/components/BenchmarkResults/CriteriaStatsTable.tsx:74-83 | two lists that differ only in ignored scores give the same rows in the same order |
| CriteriaStatsTable.TalliesAlike | frontend/src/components/BenchmarkResults/CriteriaStatsTable.tsx:88-96 | such lists give every criteria the same counters and the same complete sum |
| CriteriaStatsTable.CountsAlike | frontend/src/components/BenchmarkResults/CriteriaStatsTable.tsx:88-96 | such lists give every criteria the same count of each outcome |
| CriteriaStatsTable.SumsAlike | frontend/src/components/BenchmarkResults/CriteriaStatsTable.tsx:92-96 | such lists give every criteria the same complete sum |
| StatusBrowserModal.TabsFollowClassify | frontend/src/components/BenchmarkResults/StatusBrowserModal.tsx:43-45 | each tab's filter picks exactly the entries that the shared three-way classification puts in that outcome |
| StatusBrowserModal.TabsPartition | frontend/src/components/BenchmarkResults/StatusBrowserModal.tsx:43-45 | together the three tabs hold every entry exactly as often as the input does, and each entry is in exactly one tab |
| StatusBrowserModal.TabCountsSum | frontend/src/components/BenchmarkResults/StatusBrowserModal.tsx:43-45 | the three tab-title counts add up to the number of entries |
| StatusBrowserModal.TabsKeepOrder | frontend/src/components/BenchmarkResults/StatusBrowserModal.tsx:43-45 | every tab lists its entries in the input order |
| StatusBrowserModal.ErrorCell | frontend/src/components/BenchmarkResults/StatusBrowserModal.tsx:167-170 | 'N/A' without an error; an error of at most 100 characters is shown whole; a longer one is cut to its first 100 characters followed by "..." |
| StatusBrowserModal.StatusBrowser.constructor | frontend/src/components/BenchmarkResults/StatusBrowserModal.tsx:40 | no task-result pop-up is open at first |
| StatusBrowserModal.StatusBrowser.HandleTaskNameClick | frontend/src/components/BenchmarkResults/StatusBrowserModal.tsx:47-49 | clicking a task name stores its entry and opens the task-result pop-up |
| StatusBrowserModal.StatusBrowser.HandleTaskModalClose | frontend/src/components/BenchmarkResults/StatusBrowserModal.tsx:51-53 | closing the pop-up clears the stored entry, so it is no longer rendered |
| BenchResultsView.OrNotAvailable | frontend/src/components/BenchmarkResults/BenchmarkResultsView.tsx:69-70 | a truthy text is kept; a missing or empty one becomes 'N/A' |
| BenchResultsView.Languages | frontend/src/components/BenchmarkResults/BenchmarkResultsView.tsx:68 | the attempts' languages, one per attempt, in attempt order |
| BenchResultsView.SomeError | frontend/src/components/BenchmarkResults/BenchmarkResultsView.tsx:73 | true exactly when some evaluation result has a truthy error |
| BenchResultsView.SomeAttemptHasError | frontend/src/components/BenchmarkResults/BenchmarkResultsView.tsx:72-74 | true exactly when some attempt has a present evaluation list with a truthy error in it |
| BenchResultsView.RowOf | frontend/src/components/BenchmarkResults/BenchmarkResultsView.tsx:65-76 | a row carries the run's task-source name, its first record's name and details, and is skipped exactly when that record's skip reasons are present and non-empty |
| BenchResultsView.TransformRuns | frontend/src/components/BenchmarkResults/BenchmarkResultsView.tsx:65-76 | the flattening succeeds exactly when every run entry is readable, and then gives exactly one row per run entry, in order |
| BenchResultsView.TransformResults | frontend/src/components/BenchmarkResults/BenchmarkResultsView.tsx:62-77 | a non-array document gives no rows; an array gives the flattening of its run entries |
| BenchResultsView.OnlyFirstResultRead | frontend/src/components/BenchmarkResults/BenchmarkResultsView.tsx:67-75 | records after the first one of a run entry never change its row |
| BenchResultsView.RowColumns | frontend/src/components/BenchmarkResults/BenchmarkResultsView.tsx:68-70 | languages are the attempt languages in order, or empty without attempts; domain and difficulty are their truthy values, else 'N/A' |
| BenchResultsView.HasErrorsMeaning | frontend/src/components/BenchmarkResults/BenchmarkResultsView.tsx:72-74 | `hasErrors` holds exactly when some attempt has some evaluation result with a truthy error, and is false when the attempts are absent |
| BenchResultsView.ResultsView.constructor | frontend/src/components/BenchmarkResults/BenchmarkResultsView.tsx:13-16 | the view starts with no rows, loading, and no error |
| BenchResultsView.ResultsView.LoadResults | frontend/src/components/BenchmarkResults/BenchmarkResultsView.tsx:46-60 | loading always ends; a successful read and flattening shows the rows with no error; any failure empties the table and records 'Failed to load benchmark results' |
| BenchResultsTable.SomeLanguageMatches | frontend/src/components/BenchmarkResults/BenchmarkResultsTable.tsx:35 | true exactly when the filter occurs, ignoring case, in at least one of the row's languages |
| BenchResultsTable.FilteredResults | frontend/src/components/BenchmarkResults/BenchmarkResultsTable.tsx:32-38 | the kept rows are an order-preserving subsequence of the input; a row is kept exactly when every non-empty filter occurs in its field ignoring case (the language filter in some language), the five filters ANDed |
| BenchResultsTable.NoFiltersKeepAll | frontend/src/components/BenchmarkResults/BenchmarkResultsTable.tsx:22-38 | with every filter empty the table keeps every row |
| BenchResultsTable.TotalPages | frontend/src/components/BenchmarkResults/BenchmarkResultsTable.tsx:40-41 | the fewest pages of 100 that hold the rows; no pages exactly when there are no rows |
| BenchResultsTable.Page | frontend/src/components/BenchmarkResults/BenchmarkResultsTable.tsx:42 | at most 100 rows; empty past the end; otherwise the rows from position 100 p on, in order, and a full 100 when that many remain |
| BenchResultsTable.PagesUpToPrefix | frontend/src/components/BenchmarkResults/BenchmarkResultsTable.tsx:42 | the first k pages one after the other are the first 100 k rows |
| BenchResultsTable.PagesCoverAll | frontend/src/components/BenchmarkResults/BenchmarkResultsTable.tsx:40-42 | all pages together are the filtered list: paging loses and repeats nothing |
| BenchResultsTable.StatusLabel | frontend/src/components/BenchmarkResults/BenchmarkResultsTable.tsx:95-96 | 'Skipped' exactly when the row is skipped, 'Has Errors' exactly when it is not skipped but has errors, 'Completed' otherwise |
| BenchResultsTable.NextGuardAsWrittenOverruns | frontend/src/components/BenchmarkResults/BenchmarkResultsTable.tsx:121-122 | on a page at or past the end of the rows that is not the last page, the as-written guard leaves Next enabled, and the page it leads to is empty |
| BenchResultsTable.NextGuardCorrected | frontend/src/components/BenchmarkResults/BenchmarkResultsTable.tsx:121 | on existing pages the corrected guard agrees with the written one, and it never lets Next leave the existing pages |
| BenchResultsTable.ResultsTable.constructor | frontend/src/components/BenchmarkResults/BenchmarkResultsTable.tsx:22-30 | filters empty, first page, no details open |
| BenchResultsTable.ResultsTable.SetFilters | frontend/src/components/BenchmarkResults/BenchmarkResultsTable.tsx:47-71 | a filter input replaces the filters and leaves the page counter and the details alone |
| BenchResultsTable.ResultsTable.PreviousPage | frontend/src/components/BenchmarkResults/BenchmarkResultsTable.tsx:112-114 | enabled only off the first page; moves back one page and changes nothing else |
| BenchResultsTable.ResultsTable.NextPage | frontend/src/components/BenchmarkResults/BenchmarkResultsTable.tsx:120-122 | under the corrected guard, moves forward one page and always lands on an existing page |
| BenchResultsTable.ResultsTable.ShowDetails | frontend/src/components/BenchmarkResults/BenchmarkResultsTable.tsx:99-101 | the row's details open; filters and page stay |
| BenchResultsTable.ResultsTable.CloseDetails | frontend/src/components/BenchmarkResults/BenchmarkResultsTable.tsx:129-134 | the details close; filters and page stay |
| TaskResultModal.RenderStatusIcons | frontend/src/components/BenchmarkResults/TaskResultModal.tsx:60-84 | the icons are the shown ones in icon order; the tick exactly without an error, the warning cross exactly for a negative score, the danger cross exactly with an error, the help icon exactly with an output |
| TaskResultModal.StatusIconsUnfold | frontend/src/components/BenchmarkResults/TaskResultModal.tsx:60-84 | the icon list is the four conditional pushes one after the other |
| TaskResultModal.IconsTickOrDanger | frontend/src/components/BenchmarkResults/TaskResultModal.tsx:64-76 | exactly one of the tick and the danger cross is shown, and the icons keep icon order |
| TaskResultModal.IconsAgainstClassify | frontend/src/components/BenchmarkResults/TaskResultModal.tsx:60-84 | a result the three-way classifier calls skipped shows the tick and the warning cross together; an errored one with a negative score shows both crosses; only a complete one shows the tick with no cross |
| TaskResultModal.LanguageForEditor | frontend/src/components/BenchmarkResults/TaskResultModal.tsx:44-58 | the lower-cased language when the editor knows it, else 'plaintext' (inherited object keys aside, see Left out) |
| TaskResultModal.LanguageForEditorStable | frontend/src/components/BenchmarkResults/TaskResultModal.tsx:44-58 | the result is a known editor language or 'plaintext' (inherited object keys aside, see Left out), and choosing again from it changes nothing |
| BenchmarkService.NewSourceStatus | src/main/java/org/donutellko/modularbench/BenchmarkService.java:117-119 | a new source status has the given total and every counter 0 |
| BenchmarkService.WithCompleted | src/main/java/org/donutellko/modularbench/BenchmarkService.java:121-123 | a copy with `completed` replaced and every other field kept |
| BenchmarkService.WithInProgress | src/main/java/org/donutellko/modularbench/BenchmarkService.java:125-127 | a copy with `inProgress` replaced and every other field kept |
| BenchmarkService.WithFilteredOut | src/main/java/org/donutellko/modularbench/BenchmarkService.java:129-131 | a copy with `filteredOut` replaced and every other field kept |
| BenchmarkService.WithError | src/main/java/org/donutellko/modularbench/BenchmarkService.java:133-135 | a copy with `error` replaced and every other field kept |
| BenchmarkService.WithersIndependent | src/main/java/org/donutellko/modularbench/BenchmarkService.java:121-135 | with-ers of different fields commute, and a second call of the same with-er keeps only its own value |
| BenchmarkService.TotalOf | src/main/java/org/donutellko/modularbench/BenchmarkService.java:43-44 | the length of the `tasks` list, or 0 when the source has none |
| BenchmarkService.FirstMissing | src/main/java/org/donutellko/modularbench/BenchmarkService.java:35-39 | none exactly when every listed source file exists; otherwise the first listed file that does not |
| BenchmarkService.StartBenchmark | src/main/java/org/donutellko/modularbench/BenchmarkService.java:22-55 | a missing config file fails with its message first; else the first missing source file fails with its message; else the status has the given files and one new status per listed source with its task count as total |
| BenchmarkService.RunAsWritten | src/main/java/org/donutellko/modularbench/BenchmarkService.java:72-92 | the statuses at the end are exactly those at the start, because the with-ers' new records are dropped; the loop steps through the sources up to the first without a status, where the exception ends it, and every status saved on the way, two per source, is the unchanged start status |
| BenchmarkService.RunAsWrittenNeverCompletes | src/main/java/org/donutellko/modularbench/BenchmarkService.java:72-84 | a run over one source of three tasks ends with that source at 0 completed, never reaching its total |
| BenchmarkService.Run | src/main/java/org/donutellko/modularbench/BenchmarkService.java:72-84 | with the with-ers' results stored back, each listed source ends with completed equal to its total and none in progress; unlisted statuses and the other fields are kept |
| BenchmarkService.StartedRunCompletes | src/main/java/org/donutellko/modularbench/BenchmarkService.java:72-84 | after the corrected run of a freshly started benchmark every source accounts for all of its tasks and has none in progress |
| BenchmarkService.Service.constructor | src/main/java/org/donutellko/modularbench/BenchmarkService.java:20 | no run is active at first |
| BenchmarkService.Service.RunBenchmarkAsync | src/main/java/org/donutellko/modularbench/BenchmarkService.java:67-96 | the run is registered and then, in the `finally`, removed, so the registry ends without that result file and the statuses are unchanged |
| ProgressTracker.TaskSourceStatus.constructor | src/main/java/org/donutellko/modularbench/service/BenchmarkProgressTracker.java:41-45 | a new counter record has the given total and every counter 0 |
| ProgressTracker.TaskSourceStatus.IncrementFilteredOut | src/main/java/org/donutellko/modularbench/service/BenchmarkProgressTracker.java:47-50 | filtered-out goes up by one, the other counters stay, and one more task is accounted for |
| ProgressTracker.TaskSourceStatus.IncrementCompleted | src/main/java/org/donutellko/modularbench/service/BenchmarkProgressTracker.java:52-55 | completed goes up by one, the other counters stay, and one more task is accounted for |
| ProgressTracker.TaskSourceStatus.IncrementError | src/main/java/org/donutellko/modularbench/service/BenchmarkProgressTracker.java:57-60 | error goes up by one, the other counters stay, and one more task is accounted for |
| ProgressTracker.BenchmarkStatus.constructor | src/main/java/org/donutellko/modularbench/service/BenchmarkProgressTracker.java:29-32 | the run keeps the given config file, result file and counter map |
| ProgressTracker.BenchmarkStatus.GetTaskSourceStatus | src/main/java/org/donutellko/modularbench/service/BenchmarkProgressTracker.java:34-37 | an existing entry under the source's name is returned and the map is unchanged; otherwise a new record with the source's task count as total is put under that name and returned |
| ProgressTracker.GetTwiceSameRecord | src/main/java/org/donutellko/modularbench/service/BenchmarkProgressTracker.java:34-37 | two lookups of the same source return the same record, the one kept in the map, so every increment for that source reaches one record |
| ProgressTracker.Names | src/main/java/org/donutellko/modularbench/service/BenchmarkProgressTracker.java:71-74 | a name is a key exactly when some source has it |
| ProgressTracker.LastCount | src/main/java/org/donutellko/modularbench/service/BenchmarkProgressTracker.java:71-74 | the task count of the last source with the name, the one a later `put` leaves in place |
| ProgressTracker.NewStatuses | src/main/java/org/donutellko/modularbench/service/BenchmarkProgressTracker.java:70-74 | one new record per source name, total the task count of the last source with that name, every counter 0 |
| ProgressTracker.Tracker.constructor | src/main/java/org/donutellko/modularbench/service/BenchmarkProgressTracker.java:25 | no run is active at first |
| ProgressTracker.Tracker.CreateStatus | src/main/java/org/donutellko/modularbench/service/BenchmarkProgressTracker.java:68-80 | the new run has one fresh entry per source name with that source's task count and nothing counted, and is registered under its result file |
| ProgressTracker.Tracker.GetStatus | src/main/java/org/donutellko/modularbench/service/BenchmarkProgressTracker.java:82-84 | the registered run for a known result file, none for an unknown one |
| ProgressTracker.Tracker.CompleteRun | src/main/java/org/donutellko/modularbench/service/BenchmarkProgressTracker.java:86-96 | the run leaves the registry and no other registered run changes; an unknown file changes nothing |
| BenchExecutorService.JoinLines | src/main/java/org/donutellko/modularbench/service/BenchExecutorService.java:158-162 | no tests join to the empty text and a single test to its own code |
| BenchExecutorService.JoinLinesLength | src/main/java/org/donutellko/modularbench/service/BenchExecutorService.java:158-162 | the joined text holds every test's code and exactly one newline between each two |
| BenchExecutorService.LanguageEntry | src/main/java/org/donutellko/modularbench/service/BenchExecutorService.java:105 | there is an entry exactly when the task has a language-specific map holding the language |
| BenchExecutorService.PromptTemplate | src/main/java/org/donutellko/modularbench/service/BenchExecutorService.java:104-107 | the template is the language entry's description when there is an entry, else the common prompt |
| BenchExecutorService.Flags | src/main/java/org/donutellko/modularbench/service/BenchExecutorService.java:109-110 | one flag per available parameter, in order, each the config's flag for it |
| BenchExecutorService.CollectAsWritten | src/main/java/org/donutellko/modularbench/service/BenchExecutorService.java:109-110 | when the collection succeeds its keys are exactly the available parameters and each maps to its non-null flag |
| BenchExecutorService.ParametersAsWritten | src/main/java/org/donutellko/modularbench/service/BenchExecutorService.java:109-110 | when the parameter map is built its keys are the available parameters, each with the value the config sets for it |
| BenchExecutorService.UnsetParameterThrows | src/main/java/org/donutellko/modularbench/service/BenchExecutorService.java:109-110 | a parameter the config does not set throws, wherever it is in the list |
| BenchExecutorService.RepeatedParameterThrows | src/main/java/org/donutellko/modularbench/service/BenchExecutorService.java:109-110 | a parameter listed twice throws as a duplicate key |
| BenchExecutorService.TemplateModelAsWritten | src/main/java/org/donutellko/modularbench/service/BenchExecutorService.java:104-119 | the model is built only when the task has a language entry, a common prompt and a parameter map that builds |
| BenchExecutorService.MissingEntryThrows | src/main/java/org/donutellko/modularbench/service/BenchExecutorService.java:105-119 | a task without an entry for its language throws building the model, so the null guards on that entry are never reached |
| BenchExecutorService.UnconfiguredParameterThrows | src/main/java/org/donutellko/modularbench/service/BenchExecutorService.java:109-110 | a task offering a parameter the config does not set throws building the model |
| BenchExecutorService.ParameterFlags | src/main/java/org/donutellko/modularbench/service/BenchExecutorService.java:109-110 | one flag per available parameter, null where the config does not set it |
| BenchExecutorService.TemplateModelOf | src/main/java/org/donutellko/modularbench/service/BenchExecutorService.java:112-119 | the model holds the common prompt and the language; it has the joined public and hidden tests exactly when the language has an entry, and one flag per available parameter |
| BenchExecutorService.TemplateModelAgrees | src/main/java/org/donutellko/modularbench/service/BenchExecutorService.java:104-119 | wherever the written code builds a model, it is the one the null guards describe |
| BenchExecutorService.Prompt | src/main/java/org/donutellko/modularbench/service/BenchExecutorService.java:104-125 | the prompt throws exactly when building the template model throws (with that exception) or the model builds and the template is null; otherwise it is the template rendered with the model the null guards describe, and then rendered once more |
| BenchExecutorService.PromptCorrected | src/main/java/org/donutellko/modularbench/service/BenchExecutorService.java:104-125 | with the model the null guards describe, the prompt throws only for a null template; otherwise it is the template rendered twice with that model |
| BenchExecutorService.PromptAgrees | src/main/java/org/donutellko/modularbench/service/BenchExecutorService.java:104-125 | wherever the written code builds a model, the written and the corrected prompts are the same; elsewhere the written prompt throws, while the corrected one throws only for a null template |
| BenchExecutorService.RunEvaluators | src/main/java/org/donutellko/modularbench/service/BenchExecutorService.java:146-150 | the evaluations of a response are those of every matching evaluator, in registry order |
| BenchExecutorService.EvaluateLanguage | src/main/java/org/donutellko/modularbench/service/BenchExecutorService.java:128-153 | per configured model in order, an unknown model adds the registry's message and a known one adds one attempt with its response and evaluations |
| BenchExecutorService.EvaluateTask | src/main/java/org/donutellko/modularbench/service/BenchExecutorService.java:83-156 | a filtered task keeps its reasons and has no attempt; otherwise each allowed language adds its models' reasons and attempts, and the first allowed language whose prompt throws ends the task with that exception |
| BenchExecutorService.TaskOutcomeFailsAt | src/main/java/org/donutellko/modularbench/service/BenchExecutorService.java:97-125 | the task's languages throw exactly when the prompt of some allowed language throws |
| BenchExecutorService.TaskOutcomeFails | src/main/java/org/donutellko/modularbench/service/BenchExecutorService.java:97-125 | the task's languages throw exactly when, for some allowed language, building the template model throws or the template is null |
| BenchExecutorService.TaskOutcomeShape | src/main/java/org/donutellko/modularbench/service/BenchExecutorService.java:97-154 | the task throws exactly when, for some allowed language, building the template model throws or the template is null; otherwise the attempts are each allowed language with each served model, languages outermost, and there is one reason per allowed language and unserved model |
| BenchExecutorService.MissingEntryFailsTask | src/main/java/org/donutellko/modularbench/service/BenchExecutorService.java:104-119 | a task that passes the filter and has an allowed language without a language-specific entry throws, whatever the models give |
| BenchExecutorService.UnsetParameterFailsTask | src/main/java/org/donutellko/modularbench/service/BenchExecutorService.java:109-110 | a task that passes the filter, has an allowed language and offers a parameter the config does not set throws |
| BenchExecutorService.FilteredTaskHasNoAttempts | src/main/java/org/donutellko/modularbench/service/BenchExecutorService.java:90-95 | a task the filter rejects has the filter's reasons and no attempt |
| BenchExecutorService.PassingTaskAttempts | src/main/java/org/donutellko/modularbench/service/BenchExecutorService.java:97-154 | a task that passes the filter has one attempt per allowed language and served model, in loop order, and one reason per allowed language and unserved model |
| BenchExecutorService.ErrorsCountPositive | src/main/java/org/donutellko/modularbench/service/BenchExecutorService.java:65-68 | the error count is positive exactly when some evaluation of some attempt has an error |
| BenchExecutorService.Classify | src/main/java/org/donutellko/modularbench/service/BenchExecutorService.java:71-77 | filtered out exactly when there are skip reasons, error exactly when there are none and some evaluation has an error, completed otherwise |
| BenchExecutorService.UnknownModelCountsAsFilteredOut | src/main/java/org/donutellko/modularbench/service/BenchExecutorService.java:71-72 | a task with an allowed language and a model the registry does not know counts as filtered out, whatever its other attempts gave |
| BenchExecutorService.CountsPartition | src/main/java/org/donutellko/modularbench/service/BenchExecutorService.java:71-77 | every task result falls in exactly one of the three counters |
| BenchExecutorService.ResultsMapKeys | src/main/java/org/donutellko/modularbench/service/BenchExecutorService.java:59-63 | the task-to-results map has exactly the source's tasks as keys |
| BenchExecutorService.RecordProgress | src/main/java/org/donutellko/modularbench/service/BenchExecutorService.java:65-77 | exactly the counter of the result's class goes up by one |
| BenchExecutorService.EvaluateNext | src/main/java/org/donutellko/modularbench/service/BenchExecutorService.java:61-77 | a task that throws ends the scan with the source's outcome failed and no counter changed; otherwise its result is stored under the task and its class's counter goes up by one |
| BenchExecutorService.EvaluateTaskSource | src/main/java/org/donutellko/modularbench/service/BenchExecutorService.java:57-80 | the scan fails exactly when some task throws; otherwise each task maps to its result and each counter goes up by the number of results of its class |
| BenchExecutorService.SourceCountsEveryTask | src/main/java/org/donutellko/modularbench/service/BenchExecutorService.java:57-80 | a scan that succeeds raises the three counters by the number of tasks in total |
| BenchExecutorService.PutAllMeaning | src/main/java/org/donutellko/modularbench/service/BenchExecutorService.java:39-45 | the result loop fails exactly when some value failed, with a failed value's error; otherwise every key is put, with the value of one of its places |
| BenchExecutorService.RunOutcomeMeaning | src/main/java/org/donutellko/modularbench/service/BenchExecutorService.java:34-55 | a run fails exactly when some source's scan throws, and then with the wrapping message; otherwise it has exactly one entry per source, that source's own results |
| BenchExecutorService.SourceEntryMeaning | src/main/java/org/donutellko/modularbench/service/BenchExecutorService.java:41-63 | a source's entry in a successful run maps exactly its tasks to their results |
| BenchExecutorService.ScanSource | src/main/java/org/donutellko/modularbench/service/BenchExecutorService.java:42-53 | scanning one source gives that source's entry, or the wrapping message when it throws |
| BenchExecutorService.EvaluateSources | src/main/java/org/donutellko/modularbench/service/BenchExecutorService.java:38-45 | the loop's results are the run's outcome and the run's counter map is never replaced |
| BenchExecutorService.Evaluate | src/main/java/org/donutellko/modularbench/service/BenchExecutorService.java:34-55 | the run's outcome, and the run leaves the tracker again whether it succeeds or throws, with the other registered runs unchanged |
| BenchExecutorService.LanguageOutcomeAttempts | src/main/java/org/donutellko/modularbench/service/BenchExecutorService.java:128-153 | one language gives one attempt per model the registry serves, in the configured order |
| BenchExecutorService.LanguageOutcomeReasons | src/main/java/org/donutellko/modularbench/service/BenchExecutorService.java:128-135 | one language gives one reason per model the registry does not serve, in the configured order, each the registry's message |
| BenchExecutorService.LanguageAttemptsServed | src/main/java/org/donutellko/modularbench/service/BenchExecutorService.java:131-152 | every attempt of a language is for that language and a served model, with the client the registry picks, its response and its evaluations |
| BenchExecutor.Keep | src/main/java/org/donutellko/modularbench/BenchExecutor.java:21-57 | a task is kept exactly when its difficulty and area are configured or unrestricted, one of its languages is configured or none is, and each configured parameter and criterion is offered by the task exactly when it is enabled |
| BenchExecutor.StricterThanService | src/main/java/org/donutellko/modularbench/BenchExecutor.java:21-57 | every task this filter keeps passes the service's filter too |
| BenchExecutor.DisabledOfferedParameterSkipped | src/main/java/org/donutellko/modularbench/BenchExecutor.java:45-49 | a task offering a parameter the config switches off passes the service's filter but is skipped here |
| BenchExecutor.Models | src/main/java/org/donutellko/modularbench/BenchExecutor.java:72-76 | the client's models that the config allows, all of them when no model is configured |
| BenchExecutor.EvaluateLanguage | src/main/java/org/donutellko/modularbench/BenchExecutor.java:65-81 | one result per allowed model of the client, in the client's order, carrying the language's prompt and the generated response |
| BenchExecutor.EvaluateTask | src/main/java/org/donutellko/modularbench/BenchExecutor.java:21-82 | a skipped task gives no result; a kept one gives those of its allowed languages in order |
| BenchExecutor.EvaluateSource | src/main/java/org/donutellko/modularbench/BenchExecutor.java:20-83 | the results of the source's tasks, in task order |
| BenchExecutor.Evaluate | src/main/java/org/donutellko/modularbench/BenchExecutor.java:14-85 | the results of every source, in source order |
| BenchExecutor.LanguageRunsPairs | src/main/java/org/donutellko/modularbench/BenchExecutor.java:72-81 | one language gives exactly the allowed models, each once, in the client's order |
| BenchExecutor.TaskRunsPairs | src/main/java/org/donutellko/modularbench/BenchExecutor.java:60-82 | a kept task gives each allowed language with each allowed model, languages outermost, and their product in number |
| BenchExecutor.LanguageRunsContents | src/main/java/org/donutellko/modularbench/BenchExecutor.java:66-79 | every result of a language is for that language and an allowed model, with the language's prompt and the response generated for it |
| BenchExecutor.EveryResultKept | src/main/java/org/donutellko/modularbench/BenchExecutor.java:19-83 | every result is for a kept task of one of the sources, in one of its allowed languages |
| BenchExecutor.SourceRunsKept | src/main/java/org/donutellko/modularbench/BenchExecutor.java:20-83 | every result of a source is for a kept task of that source, in one of its allowed languages |
| BenchExecutor.TaskRunsLanguages | src/main/java/org/donutellko/modularbench/BenchExecutor.java:60-64 | every result of a task is for one of its languages that the config allows |
| TaskFilter.EnabledNames | src/main/java/org/donutellko/modularbench/service/BenchExecutorService.java:225-227 | a name is listed exactly when some enabled entry has it |
| TaskFilter.Filter | src/main/java/org/donutellko/modularbench/service/BenchExecutorService.java:175-239 | the reasons in check order: difficulty, area, language and criteria, each present exactly when its check fails |
| TaskFilter.FilterEmptyIffPasses | src/main/java/org/donutellko/modularbench/service/BenchExecutorService.java:172-175 | there is no reason exactly for a task whose difficulty, area and languages the config admits and that offers every enabled criterion |
| TaskFilter.ReasonKinds | src/main/java/org/donutellko/modularbench/service/BenchExecutorService.java:178-236 | each check adds at most one reason and does so exactly when its restriction is configured and excludes the task; the filter never adds a provider reason |
| TaskFilter.CriteriaReasonMissing | src/main/java/org/donutellko/modularbench/service/BenchExecutorService.java:220-234 | the criteria reason names exactly the enabled criteria the task lacks, and at least one |
| TaskFilter.ParametersIgnored | src/main/java/org/donutellko/modularbench/service/BenchExecutorService.java:206-217 | the parameters play no part in filtering, because their check is switched off |
| TaskFilter.FirstParam | src/main/java/org/donutellko/modularbench/service/BenchExecutorService.java:164-168 | the first config parameter whose name equals the given one ignoring case |
| TaskFilter.GetExecParam | src/main/java/org/donutellko/modularbench/service/BenchExecutorService.java:164-170 | null exactly when no config parameter has the name ignoring case; otherwise the flag of the first one that does |
| TaskFilter.GetExecParamIgnoresCase | src/main/java/org/donutellko/modularbench/service/BenchExecutorService.java:166 | names equal up to case get the same flag |
| JavaExecutor.RenameFunction | src/main/java/org/donutellko/modularbench/evaluator/codeexecutor/JavaExecutor.java:108-116 | code that already has a ` main(` is kept, and code with the placeholder keeps no copy of it |
| JavaExecutor.PlaceholderRemoved | src/main/java/org/donutellko/modularbench/evaluator/codeexecutor/JavaExecutor.java:113-133 | replacing every placeholder by `main` or `Main.main` leaves no placeholder, since neither replacement can recreate one |
| JavaExecutor.WrapSolutionClass | src/main/java/org/donutellko/modularbench/evaluator/codeexecutor/JavaExecutor.java:118-126 | code without a public class, or already with `public class Main`, comes out with `public class Main` |
| JavaExecutor.WrapsBareSolution | src/main/java/org/donutellko/modularbench/evaluator/codeexecutor/JavaExecutor.java:118-126 | solution code with no public class becomes the class `Main` around the code |
| JavaExecutor.WrapSolutionClassIdempotent | src/main/java/org/donutellko/modularbench/evaluator/codeexecutor/JavaExecutor.java:118-126 | a second pass of the class step changes nothing, wherever the first did not rename a class |
| JavaExecutor.TemplateSolutionPrepared | src/main/java/org/donutellko/modularbench/evaluator/codeexecutor/JavaExecutor.java:107-126 | a template solution without a ` main(` or a public class becomes the class `Main` around the code with each placeholder replaced by `main` |
| JavaExecutor.RenameCalls | src/main/java/org/donutellko/modularbench/evaluator/codeexecutor/JavaExecutor.java:132-136 | test code with the placeholder keeps no copy of it, and code mentioning neither the placeholder nor `Main.` is kept |
| JavaExecutor.WrapMain | src/main/java/org/donutellko/modularbench/evaluator/codeexecutor/JavaExecutor.java:138-144 | test code that already has the main signature, or has no `void`, comes out with the main signature |
| JavaExecutor.WrapTestClass | src/main/java/org/donutellko/modularbench/evaluator/codeexecutor/JavaExecutor.java:146-154 | test code without a public class, or already with `public class Test`, comes out with `public class Test` |
| JavaExecutor.WrapsBareTest | src/main/java/org/donutellko/modularbench/evaluator/codeexecutor/JavaExecutor.java:129-157 | a test body with neither `void` nor a public class is wrapped first in the main method and then in the class `Test` |
| JavaExecutor.NoClassAfterHeader | src/main/java/org/donutellko/modularbench/evaluator/codeexecutor/JavaExecutor.java:143-146 | the main header put in front of text without a public class adds none |
| JavaExecutor.VoidInSignature | src/main/java/org/donutellko/modularbench/evaluator/codeexecutor/JavaExecutor.java:138-140 | text holding the main signature holds `void` |
| JavaExecutor.PreparedCode | src/main/java/org/donutellko/modularbench/evaluator/codeexecutor/JavaExecutor.java:103 | the reported code is the prepared solution, then the separator line, then the prepared test, each recoverable at its place |
| TasksImporter.Block | tasks_importer/tasks_importer.py:45 | a text becomes a literal block exactly when it is non-empty and holds a newline |
| TasksImporter.BlockKeepsText | tasks_importer/tasks_importer.py:45 | the block style changes only how a text is written, never the text |
| TasksImporter.SegmentStart | tasks_importer/tasks_importer.py:178 | where the part after the last `/` starts, the slash just before it, and no slash after it |
| TasksImporter.LastSegment | tasks_importer/tasks_importer.py:178 | the part after the last `/`, a suffix of the id with no slash, and the whole id when it has none |
| TasksImporter.HumanEvalEntryFields | tasks_importer/tasks_importer.py:17-81 | a HumanEval task is easy exactly when its id mentions `115`, else medium; it is named and sourced by its id, in Python, with one hidden test, and keeps its prompt, test and solution texts |
| TasksImporter.ConvertHumanEval | tasks_importer/tasks_importer.py:10-82 | a version-1 source with the example name and one task per record, in order |
| TasksImporter.HiddenTests | tasks_importer/tasks_importer.py:99-103 | one hidden test per listed test, in order |
| TasksImporter.MbppTests | tasks_importer/tasks_importer.py:99-103 | the hidden tests keep each listed test's text, in order |
| TasksImporter.ConvertMbpp | tasks_importer/tasks_importer.py:84-162 | no document throws an index error; otherwise only the first document is read, one task per record in order, in a version-1 source named `mbpp-sanitized` |
| TasksImporter.MbppEntryFields | tasks_importer/tasks_importer.py:104-160 | an MBPP task is named and sourced under `mbpp-sanitized/`, easy, and has one hidden test per listed test with that test's text |
| TasksImporter.HumanEvalJavaEntry | tasks_importer/tasks_importer.py:175-178 | a record without an id fails exactly with the error its split raises; otherwise it is the task under its id |
| TasksImporter.HumanEvalJavaEntryFields | tasks_importer/tasks_importer.py:177-213 | a HumanEval-Java task is named `HumanEval/` plus its id, sourced from CodeGeeX by the id's last segment, in Java only, and keeps its texts |
| TasksImporter.CollectFailure | tasks_importer/tasks_importer.py:171-237 | collecting the records fails exactly when some record fails, with that record's error |
| TasksImporter.CollectSuccess | tasks_importer/tasks_importer.py:171-237 | a successful collection holds every record's value, in order |
| TasksImporter.JavaTasksMeaning | tasks_importer/tasks_importer.py:164-238 | the Java conversion fails exactly when some record has no id, with the attribute error; otherwise task `i` is record `i` under its id |
| TasksImporter.ConvertHumanEvalJava | tasks_importer/tasks_importer.py:164-238 | the records converted in order into a version-1 source with the example name, or the error of the first record that fails |
| TasksImporter.Dispatch | tasks_importer/tasks_importer.py:240-259 | a wrong argument count exits with the usage message; otherwise the case-folded type picks a converter for the given input and output files, or raises `Unknown type:` with the type as given |
| TasksImporter.DispatchIgnoresCase | tasks_importer/tasks_importer.py:252-259 | two spellings of the type that lower-case alike pick the same converter, and a type is unknown exactly when its lower-cased form is none of the three names |
| TasksImporter.DispatchExamples | tasks_importer/tasks_importer.py:252-259 | `MBPP` and `HumanEvalJava` reach their converters and `apps` is an unknown type |

## Left out

- File, network and process I/O are outside the model. This covers the document-store API, reading and writing YAML files, the status polling, Java compilation and execution, and the importer's file handling and `print`/`exit`. Their results are parameters.
- YAML parse and stringify, FreeMarker rendering, LLM calls, evaluators' `matches`/`execute` and the `replaceFirst`/`replaceAll` regular expressions of `JavaExecutor` are opaque functions. A FreeMarker failure while rendering is not modelled.
- Null values are not modelled for `llms`, `parameters`, `enabled` and `availableParameters` of the backend records; an empty collection stands for an absent one where the code treats them alike.
- BenchConfig: a task definition's `languages`, `availableCriteria` and `task` description are never null in the model. The backend dereferences them without a check (BenchExecutorService.java:98, 195, 223 and 229, and 105 for the description), so a null there throws a NullPointerException that the model does not represent.
- Concurrency is not modelled. This covers React's batching of state updates and races between polls. `runBenchmarkAsync` in `BenchmarkService` is annotated `@Async` but is called on `this`, which bypasses the proxy, so it runs synchronously inside `startBenchmark`; the model composes the two sequentially.
- Floating point is not modelled: scores are `real`, so NaN and rounding are left out.
- Text.ToLower: lower-cases ASCII letters only, not the full Unicode case mapping of Java's `toLowerCase`, JavaScript's `toLowerCase` and Python's `str.lower` (used by `TasksImporter.Dispatch`).
- TaskFilter.Filter: a skip reason is kept as the data its message is built from. The message text, with Java's rendering of sets and lists, is not modelled.
- StatusDialog: the dialog reads `task_sources`, `filtered_out` and `in_progress`, while the backend's records name these fields in camelCase. How the status file's JSON names them is not part of this model; the dialog is modelled on the values it reads.
- Two task sources with the same name share one progress record, as `createStatus` and `getTaskSourceStatus` give. The model keeps the later one's total but states nothing further about such runs.
- BenchExecutorService.Evaluate: states the run's outcome and the tracker's registry. It does not state the per-source counters at run level; those are stated per source by `BenchExecutorService.EvaluateTaskSource`.
- BenchExecutorService.EvaluateSources: requires every source's name to be in the status's map. That always holds, because `evaluate` builds the status from the same sources.
- BenchmarkService.Run: requires every listed source to have a status, as `startBenchmark`'s statuses always do. The missing-status exception path is modelled in `BenchmarkService.RunAsWritten`.
- BenchExecutor.Evaluate: the call to the default code executor has no modelled effect, because its result is dropped. A null task description is not modelled.
- JavaExecutor: `execute` itself (compile, load, run, time) is not modelled; only the source preparation and the reported `preparedCode` are.
- JavaExecutor.WrapSolutionClass: the check `contains("public class Main")` also accepts a class such as `MainTest`. The model keeps that check as written and states nothing about the name beyond it.
- TasksImporter: loading and dumping YAML are not modelled, and neither is the literal-block style beyond the `Literal`/`Plain` choice. An explicit null `task_id` is treated like an absent one. The MBPP `task_id` and `source_file` are taken as the text their f-strings make, so an explicit null `source_file` gives the source `mbpp-sanitized/None`.
- FileList.FileListView.HandleDelete: the ticked files are a set, so the model sends the delete requests in an unspecified order. In the source a JavaScript `Set` is iterated in insertion order, that is, the order in which the files were ticked. Which requests go out before a rejected one therefore depends on that order, and the model does not fix it.
- FileList: `handleCreateFile` (a prompt followed by an API write) is not modelled.
- YamlEditor: `handleDuplicate` (a prompt followed by an API write) is not modelled.
- TaskDetailModal.SetPath: an array met along the path is treated as a truthy non-object, so the write fails. In JavaScript an array takes the property write. An index key reaches an element, and any other key becomes a named property of the array, which the value datatype cannot hold. Strings, numbers and booleans do throw, as in the model.
- TaskDetailModal.SetPathFails: states the failure for the model above. An array intermediate makes the model fail where JavaScript writes through it.
- TaskDetailModal.UpdatedTask: inherits the array case of `SetPath`, and spreads the previous task with `YamlValue.SpreadFields`.
- YamlValue.SpreadFields: gives no fields for an array or a string. In JavaScript `{...v}` copies their index keys ("0", "1", ...). The model only spreads objects, which is what the task and config items are.
- TaskResultModal.LanguageForEditor: `langMap[...]` reads a plain object, so a language named after an inherited `Object.prototype` member ("toString", "constructor", "__proto__") yields that member rather than 'plaintext'. Inherited keys are not modelled; the same holds for `TaskResultModal.LanguageForEditorStable`.
- ModifiedFilesContext.Lookup: `modifiedFiles[directory]?.[filename]` reads plain objects, so a directory or file name that is an inherited `Object.prototype` member yields that member instead of null, and the YAML editor then takes it for a draft. Inherited keys are not modelled; the same holds for `ModifiedFilesContext.Overlay.GetModifiedContent`.
- TaskDetailModal.UpdateField: works on values. The JavaScript in-place writes into shared nested objects, and so any aliasing between them, are not captured.
- TaskSourceEditor: the table rendering is not modelled.
- ExecConfigForm.UpdateYamlField: for an array document the model relies on the YAML serializer writing only the array's items, so the named property the write adds is not written.
- ExecConfigForm: `[...config[section]]` on a section that is not a list throws in the source. The model emits nothing for such a section.
- BenchmarkResultsView: `loadAvailableFiles` and the file-selection effects are not modelled: they are I/O and React effects.
- StatusBrowserModal.ErrorCell: counts the error's length and cuts it in Unicode characters. JavaScript's `length` and `substring(0, 100)` count UTF-16 code units, so an error holding characters outside the Basic Multilingual Plane is cut at a different place.
- StatusDialog: the interval's timing is not modelled. Each call of `Tick` stands for one firing of the timer.

## Findings

| source | as written | input that shows it | evidently intended | confidence | as-written member | corrected member |
|---|---|---|---|---|---|---|
| frontend/src/components/BenchmarkResults/BenchmarkResultsTable.tsx:121 | the Next button is disabled only when `currentPage === totalPages - 1` | no rows, so `totalPages` is 0: the button stays enabled on page 0 and moves to a page past the end | disabled whenever no next page exists, `currentPage >= totalPages - 1` | not executed | BenchResultsTable.NextGuardAsWrittenOverruns | BenchResultsTable.NextGuardCorrected |
| frontend/src/components/YamlEditor.tsx:22-29 | selecting a file that has a draft shows the draft but does not reload `originalContent` | open file A, edit file B elsewhere so it has a draft, then select B: B is compared against A's saved text | the baseline is always the selected file's saved text | not executed | YamlEditor.StaleBaselineAfterDraftSelect | YamlEditor.Editor.Select |
| src/main/java/org/donutellko/modularbench/BenchmarkService.java:74, 81-82 | the with-ers' new records are discarded, so the stored statuses never change | one source of three tasks: after the run it still has 0 completed | each source ends with completed equal to its total | not executed | BenchmarkService.RunAsWrittenNeverCompletes | BenchmarkService.StartedRunCompletes |
| src/main/java/org/donutellko/modularbench/service/BenchExecutorService.java:105-119 | `Map.of` rejects null values, so the null guards for a missing language entry throw instead of giving null tests | a task whose `languages_specific` has no entry for its language | the model holds null tests for a language without an entry | not executed | BenchExecutorService.MissingEntryFailsTask | BenchExecutorService.PromptCorrected |
| src/main/java/org/donutellko/modularbench/service/BenchExecutorService.java:109-110, 164-170 | `Collectors.toMap` rejects the null that `getExecParam` returns for a parameter the config does not set | a task offering `use-llm-judge` with a config that has no parameters | an unset parameter is given to the template as null | not executed | BenchExecutorService.UnsetParameterFailsTask | BenchExecutorService.TemplateModelOf |
