# Course generator front end: a Dafny model of its client-side state

This project models the client-side state logic of a course-generation web
front end, written in React and TypeScript, and proves properties of it. The
model has seven parts:

- **Course-structure editor** (`CourseEditor`, `course_editor.dfy`). The
  ordered list of modules. Operations: field update, append,
  delete-with-renumber and swap-with-renumber. Also the plain-text export, its
  file name, and the comma-separated editing of topic and objective lists.
- **Prompt-override editor** (`PromptEditor`, `prompt_editor.dfy`). One
  optional custom text for each of three prompt templates. The texts are
  mirrored in browser storage under `customPrompt_<key>`.
- **API client** (`ApiClient`, `api_client.dfy`). It covers:
  - the stored bearer token;
  - the request interceptor, which attaches the token;
  - the response interceptor, which purges the credentials on a 401;
  - the header merge of `authFetch`;
  - `getCustomPrompts`;
  - the one-shot `syncSavedPrompts`.
- **Generation progress page** (`Generation`, `generation.dfy`). The status
  poller, written as a state machine driven by a script of fetch outcomes, and
  the choice of which view to render.
- **File import page** (`FileUpload`, `file_upload.dfy`). It covers:
  - the `.txt` check;
  - the title taken from the first line, following the title regular
    expression exactly;
  - the submit guard and the title fallback;
  - the clear and drag-state transitions.
- **Translation context** (`I18n`, `i18n.dfy`). Dotted-key lookup, `{{name}}`
  placeholder substitution, and the stored language.
- **Sign-up form** (`Signup`, `signup.dfy`). The four ordered checks and the
  success and failure effects.

Three support modules are shared:

- `Strings` models the JavaScript string operations the code relies on:
  - `trim` and `\s`, which cover the ECMAScript WhiteSpace and LineTerminator
    characters;
  - `split` and `join` on one character;
  - global literal replacement;
  - truthiness of optional text, and `a || b`.
- `Storage` models `localStorage` as a class over a map.
- `Wrappers` holds `Option`.

Components that update state in place are classes whose methods state the
whole new state. These are `LocalStorage`, `PromptEditorPage`,
`FileUploadPage`, `GenerationPage`, `LanguageProvider`, `SignupPage`,
`PromptSync` and `RequestConfig`.

Methods with loops are proved against specification functions:

| method | specification |
|---|---|
| export loop | `ExportLines` / `Unlines` |
| header copy | `FromPairs` |
| load and sync loops | `SyncedItems`, `LoadedCustoms` |
| `t` | `Substitute` |
| `moveModule` on an array | `Moved` |

Server replies, the file reader, and the outcome of `register` are
parameters: each arrives as a value of a datatype.

The proofs establish several facts about the code as
written:

- The "no placeholder left" guarantee of `t` needs more than "no value holds a
  later placeholder". A value containing a brace, or an empty value, can
  complete a placeholder that the replacement itself broke apart. Two concrete
  lemmas show this: `BraceValueLeavesPlaceholder` and
  `EmptyValueLeavesPlaceholder`.
- The guarantee is proved for values that are non-empty, brace-free and not
  substrings of any supplied name (`NoPlaceholderLeft`).
- The pattern's `.` excludes `\r`, so a file with Windows line endings never
  yields a title (`CrlfKeepsTitle`).
- `syncSavedPrompts` overwrites any local override with a non-empty remote
  one. No rule lets the local value win.
- The poller's effect registers no cleanup, so no cancellation is modelled.

## Model

| member | source | states |
|---|---|---|
| CourseEditor.RenumberedIsNumbered | src/pages/ModuleEditorPage.tsx:76-78 | renumbering keeps the length and leaves every module numbered with its position plus one; an already numbered list is unchanged by it |
| CourseEditor.Set | src/pages/ModuleEditorPage.tsx:50 | `{ ...m, [f]: v }` replaces field f and keeps every other field |
| CourseEditor.UpdateModule | src/pages/ModuleEditorPage.tsx:46-52 | without a structure nothing changes; otherwise only field f of module `index` changes: every other module, every course-level field, the list length and the open form are kept, and no renumbering happens |
| CourseEditor.UpdateKeepsNumbering | src/pages/ModuleEditorPage.tsx:46-51 | editing a non-number field preserves the numbering invariant |
| CourseEditor.AddModule | src/pages/ModuleEditorPage.tsx:54-71 | appends exactly one placeholder module numbered old length + 1 with the fixed fields, keeps the existing modules and the course fields, and opens the new module's form at the old length |
| CourseEditor.AddKeepsNumbering | src/pages/ModuleEditorPage.tsx:57-69 | appending preserves the numbering invariant when it held |
| CourseEditor.DeleteModule | src/pages/ModuleEditorPage.tsx:73-82 | with no structure or at most one module nothing changes; otherwise the module at `index` is dropped (nothing is when the index is out of range), the survivors keep their order and content, are numbered 1..n, and the form closes |
| CourseEditor.DeleteSurvivors | src/pages/ModuleEditorPage.tsx:76-78 | on a numbered list, the length drops by one, modules before `index` are unchanged and later ones shift down one place with their new number |
| CourseEditor.MoveAtBoundary | src/pages/ModuleEditorPage.tsx:87-88 | moving up from the first or down from the last position leaves the state unchanged |
| CourseEditor.MoveSwapsTwo | src/pages/ModuleEditorPage.tsx:87-97 | an in-range move exchanges the two modules only, numbers every module with its position plus one, keeps the course fields, and opens the form at the new index |
| CourseEditor.MoveDownThenUp | src/pages/ModuleEditorPage.tsx:84-98 | on a numbered list, moving a module down and then back up restores the structure |
| CourseEditor.MoveModule | src/pages/ModuleEditorPage.tsx:84-98 | copying into an array, swapping the two slots and renumbering every slot in place gives exactly the state `Moved` describes |
| CourseEditor.HeaderText | src/pages/ModuleEditorPage.tsx:103-105 | the header lines as text are `Course:` title, `Description:` text, a blank line, the separator and a blank line |
| CourseEditor.ExportHeader | src/pages/ModuleEditorPage.tsx:103-105 | the exported text starts with that header |
| CourseEditor.ModulesLinesSplit | src/pages/ModuleEditorPage.tsx:107-118 | the module part of the export is each module's block, in list order |
| CourseEditor.ListLinesPresent | src/pages/ModuleEditorPage.tsx:110-115 | a module's block has an `Objectives:` line exactly when its objectives are non-empty, and a `Topics:` line exactly when its topics are |
| CourseEditor.AppendModule | src/pages/ModuleEditorPage.tsx:108-117 | one pass of the loop body appends the module's lines, each followed by a newline |
| CourseEditor.AppendModules | src/pages/ModuleEditorPage.tsx:107-118 | the loop appends all modules' lines in order after the header |
| CourseEditor.ExportToTxt | src/pages/ModuleEditorPage.tsx:100-127 | without a structure nothing is exported; otherwise the content is the newline-terminated export lines and the file name is the sanitised title |
| CourseEditor.Sanitize | src/pages/ModuleEditorPage.tsx:124 | keeps the length, keeps each ASCII letter and digit, and replaces every other character by `_` |
| CourseEditor.FileNameShape | src/pages/ModuleEditorPage.tsx:124 | the file name is as long as the title plus the suffix, ends in `_modules.txt`, and its title part holds only ASCII letters, digits and `_` |
| CourseEditor.TrimAndDropEmpty | src/pages/ModuleEditorPage.tsx:274 | every item left after trimming and dropping empty ones is non-empty and trimmed |
| CourseEditor.EditList | src/pages/ModuleEditorPage.tsx:269-274 | every item the list input stores is non-empty, trimmed and comma-free |
| CourseEditor.EditListRoundTrip | src/pages/ModuleEditorPage.tsx:283-288 | the input shows the list joined with `", "`; splitting that text again returns the same list when its items are non-empty, trimmed and comma-free |
| CourseEditor.ExportedTopicsReadBack | src/pages/ModuleEditorPage.tsx:114 | the exported `Topics:` line is in the module's block, and reading its text back through the list-editing rule gives the topics |
| PromptEditor.Overrides.Set | src/pages/PromptEditorPage.tsx:65 | setting one key's override changes that key only |
| PromptEditor.LoadedCustoms | src/pages/PromptEditorPage.tsx:47-57 | the loaded overrides hold exactly the keys with a non-empty saved text, each with that text; every other key is null |
| PromptEditor.BuildSavePayload | src/pages/PromptEditorPage.tsx:82-87 | the payload holds exactly the keys with an override, even an empty one, each with its text, and no other name |
| PromptEditor.PromptEditorPage.constructor | src/pages/PromptEditorPage.tsx:21-30 | no defaults, no overrides, no load error, idle and not saving |
| PromptEditor.PromptEditorPage.IsCustom | src/pages/PromptEditorPage.tsx:108 | a key is custom, even with an empty override, exactly when resetting it would change the overrides, which is when its reset button is enabled |
| PromptEditor.PromptEditorPage.GetValue | src/pages/PromptEditorPage.tsx:109 | an override, even an empty one, wins; otherwise the default for the key, otherwise the empty text |
| PromptEditor.PromptEditorPage.Load | src/pages/PromptEditorPage.tsx:32-62 | a rejected request sets only `Failed to connect to server`; a successful defaults reply installs its prompts, a failed one sets its error or `Failed to load defaults`; a successful saved reply replaces the overrides wholesale with the non-empty saved texts and writes each of those to storage; nothing else changes |
| PromptEditor.PromptEditorPage.Change | src/pages/PromptEditorPage.tsx:64-68 | once the editor is shown (defaults or a load error present), the key's override and its storage entry become the value, other keys are unchanged, the status becomes idle, and `getValue` returns the value |
| PromptEditor.PromptEditorPage.ResetDefault | src/pages/PromptEditorPage.tsx:70-74 | once the editor is shown, the key's override is null and its storage entry is removed, the status becomes idle, `isCustom` is false and `getValue` returns the default |
| PromptEditor.PromptEditorPage.BeginSave | src/pages/PromptEditorPage.tsx:76-93 | once the editor is shown, marks the page saving with an idle status and sends the payload of current overrides (exactly the keys with an override, each with its text, and no other name) to the save endpoint with the JSON content type and the bearer header |
| PromptEditor.PromptEditorPage.FinishSave | src/pages/PromptEditorPage.tsx:95-105 | the status is `saved` exactly when the reply reports success and `error` otherwise, thrown errors included; saving stops and the overrides are never touched |
| ApiClient.GetToken | src/api/client.ts:18-20 | the token is the stored `auth_token` entry, or nothing |
| ApiClient.SetToken | src/api/client.ts:22-24 | stores the token under `auth_token`, after which `getToken` returns it |
| ApiClient.RemoveToken | src/api/client.ts:26-28 | removes `auth_token`, after which `getToken` returns nothing |
| ApiClient.AttachToken | src/api/client.ts:31-37 | a stored non-empty token sets `Authorization` to `Bearer <token>`; otherwise the headers are kept as they were |
| ApiClient.OnResponseError | src/api/client.ts:39-49 | a 401 removes both `auth_token` and `user`; any other error leaves storage untouched; the error is rejected again in both cases |
| ApiClient.FromPairsLastWins | src/api/client.ts:59-61 | copying pairs one after another keeps a name exactly when some pair has it, with the value of the last such pair |
| ApiClient.MergedHeaders | src/api/client.ts:56-69 | with a non-empty token, `Authorization` is the bearer value and every other copied header passes through; without one the copied headers pass through unchanged |
| ApiClient.CopyPairs | src/api/client.ts:59-61 | the copy loop over a `Headers` object or a pair array builds the last-wins map |
| ApiClient.AuthFetch | src/api/client.ts:52-72 | the request goes to the URL with the merged headers of the supplied headers and the stored token |
| ApiClient.PromptStorageKeysDistinct | src/api/client.ts:131 | the three prompt storage keys are distinct and differ from `auth_token` and `user` |
| ApiClient.GetCustomPrompts | src/api/client.ts:133-142 | nothing exactly when no key holds a non-empty stored text; otherwise exactly the keys that do, each with its stored text |
| ApiClient.SyncedItems | src/api/client.ts:154-160 | each key with a non-empty remote text is written, overwriting the local value; every other storage entry is untouched |
| ApiClient.PromptSync.constructor | src/api/client.ts:147 | the one-shot flag starts unset |
| ApiClient.PromptSync.Sync | src/api/client.ts:148-165 | the first call sets the flag before fetching and fetches once; later calls fetch nothing; only a successful reply with prompts changes storage, to `SyncedItems` of it; a thrown error or an unsuccessful reply leaves storage unchanged |
| ApiClient.SyncedThroughAll | src/api/client.ts:155-160 | the sync loop's three steps produce `SyncedItems` |
| ApiClient.SyncRepeatedly | src/api/client.ts:147-150 | any number of calls makes at most one fetch, even after a failure, and none once the flag is set |
| Generation.ErrorMessage | src/pages/GenerationPage.tsx:25 | the response body's `error` wins, then the error's message, then `Failed to get job status`; it is never empty |
| Generation.Start | src/pages/GenerationPage.tsx:13-30 | without a job id nothing is requested; with one the first request goes out at once, with no timer |
| Generation.Deliver | src/pages/GenerationPage.tsx:17-26 | a snapshot becomes the job and a `running` one arms exactly one timer; `completed` and `failed` arm none; an error sets the message by precedence and stops; no request is added |
| Generation.NoJobIdNoFetch | src/pages/GenerationPage.tsx:14 | without a job id no request is ever made, whatever the server would say |
| Generation.RunningThenTerminal | src/pages/GenerationPage.tsx:16-29 | from an outstanding request, k `running` snapshots then a terminal one make k more requests and leave the terminal snapshot as the job, with polling stopped |
| Generation.PollUntilTerminal | src/pages/GenerationPage.tsx:13-30 | with a job id, k `running` snapshots then a terminal one make exactly k + 1 requests, and the job shown is the terminal snapshot |
| Generation.RunningThenError | src/pages/GenerationPage.tsx:24-26 | a failed request after k `running` snapshots stops polling after k + 1 requests, with the precedence message and the last snapshot still stored |
| Generation.FetchOffset | src/pages/GenerationPage.tsx:16-29 | the requests made before a run only add to its count: the run is otherwise the same |
| Generation.TimerAddsOneFetch | src/pages/GenerationPage.tsx:21-23 | an armed timer costs exactly one request and changes nothing else: the run goes on as if that request were already outstanding |
| Generation.StillPolling | src/pages/GenerationPage.tsx:21-23 | while every snapshot is `running`, a request is always outstanding and one is made per snapshot |
| Generation.GenerationPage.constructor | src/pages/GenerationPage.tsx:10-14 | mounting starts the poller as `Start` says |
| Generation.GenerationPage.OnFetchSettled | src/pages/GenerationPage.tsx:17-26 | the page's cells change as `Deliver` says |
| Generation.GenerationPage.OnTimer | src/pages/GenerationPage.tsx:22 | the timer issues exactly one further request and keeps the job and the error |
| Generation.GenerationPage.Play | src/pages/GenerationPage.tsx:16-29 | playing a script against the page gives the state `RunFrom` computes |
| Generation.DriveLink | src/pages/GenerationPage.tsx:102-111 | a link exists exactly when the report's folder id is non-empty, and it points to that Drive folder |
| Generation.ViewOf | src/pages/GenerationPage.tsx:32-128 | an error message shows the error view whatever the job; with neither error nor job the connecting view shows; otherwise the view follows the job's status; the running view shows the job's progress and counts and the current topic exactly when it is non-empty; the failed view shows a reason exactly when the job's error is truthy |
| Generation.CompletedPage | src/pages/GenerationPage.tsx:86-111 | after k `running` snapshots and a `completed` one, the completed view shows the topics and three documents per topic, and the Drive link exactly when the report names a folder |
| Generation.ErrorPage | src/pages/GenerationPage.tsx:24-45 | a failed request after any number of `running` snapshots shows the error view with the precedence message |
| FileUpload.FirstLine | src/pages/FileUploadPage.tsx:29 | the first line is a newline-free prefix of the content, ended by the first newline or by the end |
| FileUpload.KeywordLength | src/pages/FileUploadPage.tsx:30 | `Course` is recognised, up to ASCII case, before `Curso` |
| FileUpload.CaptureStart | src/pages/FileUploadPage.tsx:30 | any capture start the matcher reports lies inside the line |
| FileUpload.MatchCourseLine | src/pages/FileUploadPage.tsx:30 | the pattern matches exactly when the line has a decomposition, and the group is then a non-empty tail of the line captured by one of them |
| FileUpload.MatchSound | src/pages/FileUploadPage.tsx:30 | every match is a decomposition into keyword, optional whitespace, `:` or `-`, optional whitespace, and a non-empty group with no line terminator reaching the end |
| FileUpload.MatchComplete | src/pages/FileUploadPage.tsx:30 | every such decomposition makes the matcher succeed, with the greedy group and the same separator |
| FileUpload.MatchTitle | src/pages/FileUploadPage.tsx:30-32 | for any decomposition, the title taken, the trimmed group, is the trimmed text after the separator |
| FileUpload.TrailingTerminatorNoMatch | src/pages/FileUploadPage.tsx:30 | a line ending in a line terminator has no decomposition and never matches |
| FileUpload.ExtractedTitle | src/pages/FileUploadPage.tsx:29-33 | a matching first line gives the trimmed group; otherwise the title is unchanged |
| FileUpload.CrlfKeepsTitle | src/pages/FileUploadPage.tsx:29-33 | content with a CRLF first line keeps the current title |
| FileUpload.SubmittedTitle | src/pages/FileUploadPage.tsx:84 | the trimmed title, or `Imported Course` when it is blank; never empty and always trimmed |
| FileUpload.FileUploadPage.constructor | src/pages/FileUploadPage.tsx:8-13 | every text is empty and no flag is set |
| FileUpload.FileUploadPage.HandleFile | src/pages/FileUploadPage.tsx:15-39 | a name not ending in `.txt` (case-sensitive) sets the error and changes neither content, name nor title; a read file sets its content and name, clears the error and sets the extracted title; a failed read only sets `Failed to read file` |
| FileUpload.FileUploadPage.HandleDrag | src/pages/FileUploadPage.tsx:41-49 | `dragenter` and `dragover` activate, `dragleave` deactivates, any other event leaves the drag state; nothing else changes |
| FileUpload.FileUploadPage.HandleDrop | src/pages/FileUploadPage.tsx:51-59 | a drop always deactivates, then handles the first file as `handleFile` does, or changes nothing else when there is none |
| FileUpload.FileUploadPage.HandleFileChange | src/pages/FileUploadPage.tsx:61-65 | handles the first chosen file as `handleFile` does, or changes nothing when there is none; the drag state is kept |
| FileUpload.FileUploadPage.BeginSubmit | src/pages/FileUploadPage.tsx:67-86 | empty content sets `Please upload a file first` and sends nothing; otherwise the error clears, parsing starts and the content goes out with the submitted title |
| FileUpload.FileUploadPage.FinishSubmit | src/pages/FileUploadPage.tsx:88-100 | only a successful reply moves on to the editor; a failed reply or a thrown error sets its message or `Failed to parse modules`; parsing stops either way |
| FileUpload.FileUploadPage.ClearFile | src/pages/FileUploadPage.tsx:103-106 | content, name and title become empty; the error and flags stay |
| I18n.Field | src/i18n/LanguageContext.tsx:19 | `acc?.[part]` finds a field only of an object that has it |
| I18n.Lookup | src/i18n/LanguageContext.tsx:19 | the empty path is the start; any other path finds something only inside an object having its first segment, so once a segment is missing nothing is found |
| I18n.LookupAppend | src/i18n/LanguageContext.tsx:19 | looking up a joined path is looking up its first part, then the rest from there |
| I18n.GetNestedValue | src/i18n/LanguageContext.tsx:18-21 | when the dotted path leads to a text the result is that text, otherwise it is the path itself |
| I18n.NestedValueFound | src/i18n/LanguageContext.tsx:18-21 | a path of dot-free segments that leads to a text gives that text |
| I18n.NestedValueFallback | src/i18n/LanguageContext.tsx:18-21 | a path that leads nowhere, or to something other than text, gives the path itself |
| I18n.UnknownKey | src/i18n/LanguageContext.tsx:18-21 | a key whose first segment the bundle lacks translates to itself |
| I18n.Substitute | src/i18n/LanguageContext.tsx:36-40 | a text holding none of the supplied placeholders comes back unchanged |
| I18n.ReplaceLeavesNone | src/i18n/LanguageContext.tsx:38 | one global replace with a safe value leaves no `{{name}}` that was replaced, and creates none that was absent |
| I18n.SubstituteLeavesNone | src/i18n/LanguageContext.tsx:36-40 | applying safe parameters in order leaves no placeholder of a supplied name, nor of a name whose placeholder was absent |
| I18n.NoPlaceholderLeft | src/i18n/LanguageContext.tsx:36-40 | with non-empty, brace-free values that are not substrings of any supplied name, no supplied placeholder is left |
| I18n.BraceValueLeavesPlaceholder | src/i18n/LanguageContext.tsx:37-39 | a value containing a brace can leave a placeholder even though it holds no later one: `{{{a}}a}}` with `a` as `{` gives `{{a}}` |
| I18n.EmptyValueLeavesPlaceholder | src/i18n/LanguageContext.tsx:37-39 | an empty value can glue a placeholder together: `{{{{a}}a}}` with `a` as empty gives `{{a}}` |
| I18n.InitialLanguage | src/i18n/LanguageContext.tsx:24-27 | the stored value when it is `en` or `es`, English otherwise |
| I18n.LanguageRoundTrip | src/i18n/LanguageContext.tsx:24-32 | a saved language is the one restored at the next start-up |
| I18n.LanguageProvider.constructor | src/i18n/LanguageContext.tsx:24-27 | the language starts as the one restored from storage |
| I18n.LanguageProvider.SetLanguage | src/i18n/LanguageContext.tsx:29-32 | makes the language current and stores its code under `language`, so the next start-up restores it |
| I18n.LanguageProvider.T | src/i18n/LanguageContext.tsx:34-42 | without parameters the result is the lookup alone; with parameters, each parameter's placeholder is replaced everywhere, in entry order |
| Signup.Validate | src/pages/SignupPage.tsx:22-40 | the first failing check wins: a blank field, a trimmed user name under three characters, an untrimmed password under six, different confirmation; it passes exactly when the trimmed name has three characters, the password six, it is not blank and matches the confirmation |
| Signup.UntrimmedPasswordCounts | src/pages/SignupPage.tsx:32-35 | for any user name that passes and any password with a non-blank core, whitespace around the password counts towards the six characters: it passes exactly when its typed length is at least six |
| Signup.TrimmedUsernameCounts | src/pages/SignupPage.tsx:27-30 | whitespace around a trimmed user name never changes the verdict of the checks, so padding does not make a short name long enough |
| Signup.SignupPage.constructor | src/pages/SignupPage.tsx:12-17 | empty fields, no error, not loading |
| Signup.SignupPage.BeginSubmit | src/pages/SignupPage.tsx:22-46 | registration is asked for exactly when all checks pass, with the trimmed user name and the untouched password, the error cleared and loading set; a failed check sets its translated message instead |
| Signup.SignupPage.FinishSubmit | src/pages/SignupPage.tsx:46-54 | a new account stores its token and `user` and reports the user name; a thrown error sets the body's `error`, else the message, else the translated failure text, and leaves storage; loading stops either way |

## Left out

- Rendering, CSS, routing and `navigate` are left out. The render choice of the progress page is the selector `ViewOf`. Navigation is the result value `navigated` or `signedUp`.
- The network, the page reload on a 401, `FileReader`, the Blob download and timers are left out. Each fetch or read outcome is a parameter. The two-second timer is a phase that always fires. The thin API wrappers after `syncSavedPrompts`, including `getJobStatus`, are not modelled. Nor are the request URLs of the load effect.
- `register` is defined outside the code modelled here. Its outcome is a parameter.
- `moveModule` renumbers module objects it shares with the previous state. The model works on values, so it does not capture that this aliasing changes the old state's objects too.
- `Object.entries(params)` order is taken as the order of the parameter sequence. Keys holding regular-expression characters are not modelled, nor are `$` patterns in replacement values. Each replace is literal.
- `String(v)` of numeric parameter values is not modelled: only text values are.
- Translation bundle contents are parameters. A lookup through an array or a string, or an inherited property, is not modelled: `JOther` finds nothing.
- ApiClient.AuthFetch: the request keeps only the URL and the merged headers; the caller's other `fetch` options (method, body), which are passed on unchanged, are not modelled.
- PromptEditor.PromptEditorPage.Change, ResetDefault and BeginSave require the editor to be shown, as the page renders only a spinner until the defaults or a load error arrive; edits racing the load are therefore not modelled.
- Header names are compared case-sensitively. `Headers` objects are given as the pairs their `forEach` visits.
- Job statuses are the three the type declares. Progress and counts are unbounded integers rather than floating-point numbers.
- Lengths count characters, not UTF-16 code units. `\s` is matched against the ECMAScript whitespace set. The `/i` flag is modelled as ASCII case folding, which is all it does to the keyword letters.
- Signup.SignupPage.constructor: the context's `t` is a parameter, applied to keys without placeholders.
- ApiClient.SetToken: a token is a string. A missing token in a registration reply, which would store the text `undefined`, is not modelled.
- Each asynchronous handler (`handleSave`, `handleSubmit`) is split into its synchronous start and the completion taking the outcome. Interleavings of two pending submissions are not modelled.
- The module editor's effect that installs the structure handed over by navigation is not modelled. Neither are its content-generation handler and its `sourceFlow` tracking.
- The expanded-section toggle and the variable hints of the prompt editor are UI state and are not modelled.
