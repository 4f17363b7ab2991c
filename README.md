# Nuzantara Studio PRO — a verified model of the IDE shell's logic

Nuzantara Studio PRO is a browser IDE shell written in React and TypeScript. It has a chat
panel and code agents backed by an OpenRouter-compatible chat API, a virtual file system with
an editor, a file explorer, a provider and model picker, and an extensions dialog. Most of the
program is rendering. This Dafny project models the logic under the rendering and proves what
that logic promises:

- **The chat client** (`api.dfy`, module `Api`). `callOpenRouter` is a method that reads the
  response body chunk by chunk, splits each chunk into lines, keeps the `data: ` events and
  accumulates the deltas. It is proved against the specification function `StreamDeltas`: the
  returned text is the in-order concatenation of exactly the deltas passed to `onChunk`.
  Lemmas then show what `StreamDeltas` keeps and drops: blank and non-data lines,
  `[DONE]`, unparsable payloads, empty deltas. The error path and the non-streamed path are
  functions. `JSON.parse` with the property reads after it is a parser passed in by the caller.
- **File-name classification** (`api.dfy` and `files_panel.dfy`): `getFileExtension`,
  `getLanguageFromFilename` with its 22-entry table, and the explorer's `getFileIcon`, which
  treats a name without a dot as its own extension.
- **The application state** (`app.dfy`, module `App`). `AppState` is a class whose fields are
  the stored values of `App`. Its methods are the handlers: provider change, send message
  with the streaming placeholder, file change/select/create/delete, and run agent. The
  updaters the handlers pass to the state setters are pure functions with their own lemmas.
  The file system is a JavaScript object, modelled as its ordered list of entries
  (`records.dfy`), because the key order decides which file becomes current after a delete.
  `AppState.Valid` is the class invariant: there is a built-in provider, and the default and
  stored file systems never hold a key twice, as a JavaScript object cannot. Every handler
  keeps it.
- **The extensions dialog** (`extensions.dfy`): the fixed catalog, the installed/installable
  split, search and type filtering, and install, uninstall and toggle.
- **The sidebar** (`sidebar.dfy`): built-in providers followed by custom ones, first-match
  lookup, the models offered, and the navigation entries.
- **Constants** (`constants.dfy`): the agent prompt templates (round trip, injectivity,
  length law), the default file system and the model list.

`text.dfy` holds the string operations of JavaScript the code relies on (`trim`,
`toLowerCase`, `split`, `includes`, `startsWith`, concatenation). `wrappers.dfy` holds
`Option` and `Result`. `types.dfy` holds the datatypes of `src/lib/types.ts`.

Behaviour of the code worth noting, which the model keeps:

- **`[DONE]`**: in the usual Server-Sent Events convention of OpenAI-compatible chat APIs,
  `data: [DONE]` marks the end of the stream. The code at `src/lib/api.ts:45` only skips that
  line (`continue`); the loop ends only when the reader reports done. `Api.DoneSentinelContinues` and `Api.DoneReadContinues`
  state this.
- **Create before load**: `handleFileCreate` guards against `fileSystem || DEFAULT_FILE_SYSTEM`.
  Its updater, however, starts from `prev || {}`. If the stored file system is not yet known,
  the created file is then the only one (`App.CreateBeforeLoadDropsDefaults`).
- **Empty model list**: when no model can be chosen, `currentProvider.models[0].value` throws
  a `TypeError` inside the `try`. The `catch` and `finally` then run; the model shows this
  path with `App.TypeErrorText`.

## Model

| member | source | states |
|---|---|---|
| Api.DecodeLines | src/lib/api.ts:42-56 | the inner `for` over one read's lines: the deltas passed to `onChunk` are exactly `LinesDeltas` of the lines, in order, and the accumulator is their concatenation (loop invariants) |
| Api.ReadStream | src/lib/api.ts:28-60 | the read loop: the values passed to `onChunk` are exactly the deltas of the whole body (`StreamDeltas`), in read and line order, and the returned text is their concatenation — nothing duplicated, dropped or reordered |
| Api.CallOpenRouter | src/lib/api.ts:3-65 | the request is built from the config; a rejected fetch, a non-ok response (provider message or `'API request failed'`) and a streamed response without a reader (`'Response body is not readable'`) fail before any chunk; the non-streamed path returns the message content or `''`; the streamed path returns the concatenation of the emitted deltas; no chunk is emitted without `onChunk` |
| Api.BuildRequest | src/lib/api.ts:8-21 | the URL is the base URL followed by `/chat/completions`, the authorization is `Bearer <key>`, and the body carries the model, the messages, and `stream` equal to whether a chunk callback was given |
| Api.ErrorMessage | src/lib/api.ts:23-26 | a non-ok response fails with the provider's own non-empty message, and with `'API request failed'` otherwise; the message is never empty |
| Api.CompletionText | src/lib/api.ts:61-64 | the non-streamed result is an error exactly when reading the content throws; otherwise it is the message content, and `''` when the content is absent |
| Api.NonBlank | src/lib/api.ts:40 | a line is kept exactly when it is non-blank after `trim`: every kept line comes from the input and every non-blank input line is kept |
| Api.EventLines | src/lib/api.ts:40 | the lines examined in one read are exactly the non-blank parts of `split('\n')`; none contains a newline, and there are no more of them than parts |
| Api.LineDelta | src/lib/api.ts:43-53 | a line delivers something exactly when it starts with `data: `, its payload is not `[DONE]` and parses to non-empty content, and what it delivers is that content |
| Api.ChunkDeltas | src/lib/api.ts:39-56 | one read delivers only non-empty deltas, at most one per line of the read |
| Api.StreamDeltas | src/lib/api.ts:35-58 | a body delivers only non-empty deltas, and a body with no reads delivers nothing |
| Api.LinesDeltas | src/lib/api.ts:49-53 | no delivered delta is empty |
| Api.LinesDeltasAppend | src/lib/api.ts:42-56 | decoding a concatenation of line lists decodes each part in turn |
| Api.StreamDeltasAppend | src/lib/api.ts:35-56 | decoding a concatenation of reads decodes each part in turn |
| Api.ChunkDeltasAtNewline | src/lib/api.ts:40 | a read whose text has a newline at some point decodes as its two sides decoded one after the other |
| Api.SilentLineIsSilent | src/lib/api.ts:40-55 | a blank line, a non-`data: ` line, `[DONE]`, an unparsable payload or one without `choices`, and an absent or empty delta deliver nothing |
| Api.SilentLineSkipped | src/lib/api.ts:40-55 | such a line can be removed from a read without changing what the read delivers: a malformed event does not abort or disturb the stream around it |
| Api.DeltaComesFromDataLine | src/lib/api.ts:43-53 | conversely, a line that delivers something is a non-blank `data: ` line whose payload parses to non-empty content, and it delivers exactly that content |
| Api.DoneSentinelContinues | src/lib/api.ts:45 | `[DONE]` is skipped with `continue`: the lines before and after it in the same read deliver as if it were not there |
| Api.DoneReadContinues | src/lib/api.ts:35-37 | a read holding only `[DONE]` does not end the stream: later reads still deliver |
| Api.ContentEventsAllDelivered | src/lib/api.ts:47-53 | a stream of content events, each parsing to non-empty content, delivers exactly those contents, in order |
| Api.SplitEventIsLost | src/lib/api.ts:39-40 | lines are not reassembled across reads: `data: {}` in one read delivers its content; the same text split into two reads between `{` and `}` delivers nothing |
| Api.GetFileExtension | src/lib/api.ts:76-79 | the extension has no dot, is `''` for a name without a dot, and is otherwise the suffix after a dot that itself has no dot, that is, the text after the last dot |
| Api.GetLanguageFromFilename | src/lib/api.ts:81-108 | the language is the table's entry for the lower-cased extension when the table lists it, and `'plaintext'` when it does not; a name without a dot is `'plaintext'` |
| Api.LanguageLookupAsWritten | src/lib/api.ts:107 | the lookup as written yields either a value of the table, or an inherited member, and then only for an extension the table lacks and `Object.prototype` defines |
| Api.LookupAgreesOffPrototype | src/lib/api.ts:107 | except for the names every JavaScript object inherits, the table lookup as written gives the same language as the intended one |
| Api.ConstructorExtensionFound | src/lib/api.ts:107 | `main.constructor` gets `Object.prototype.constructor` from the code as written and `'plaintext'` as intended |
| Api.UpperCaseExtension | src/lib/api.ts:82-107 | `App.TSX` is `typescript`: the extension is lower-cased before the lookup |
| Api.JsExtension | src/lib/api.ts:82-107 | `index.js` is `javascript` |
| Api.NoExtension | src/lib/api.ts:76-79 | `Makefile` has the extension `''` and is `plaintext` |
| Api.ExtensionOfDotted | src/lib/api.ts:78 | the extension of `base.ext`, for an `ext` without a dot, is `ext` |
| FilesPanel.IconForExtension | src/components/FilesPanel.tsx:44-57 | the script icon exactly for `js`, `jsx`, `ts`, `tsx`; the HTML icon exactly for `html`; the stylesheet icon exactly for `css`, `scss`; the plain icon exactly for everything else |
| FilesPanel.GetFileIcon | src/components/FilesPanel.tsx:42-58 | the icon is chosen from the lower-cased extension for a name with a dot, and from the whole lower-cased name for a name without one |
| FilesPanel.DotlessScriptName | src/components/FilesPanel.tsx:43 | `JS` gets the script icon although its language is `plaintext`: the two helpers extract the extension differently |
| FilesPanel.IconAgreesWithLanguage | src/components/FilesPanel.tsx:44-57 | for a name with a dot, the script, HTML and stylesheet icons are given exactly to the names whose language is JavaScript/TypeScript, HTML and CSS/SCSS |
| FilesPanel.LanguageOfIconExtension | src/components/FilesPanel.tsx:44-57 | the same correspondence between the icon `switch` and the language table, extension by extension |
| FilesPanel.CreateDialog.HandleCreate | src/components/FilesPanel.tsx:34-40 | a typed name that is not blank is passed on trimmed, the input is cleared and the dialog closed; a blank name passes nothing on and changes nothing |
| FilesPanel.CreatedNameIsTrimmed | src/components/FilesPanel.tsx:35-36 | a name is passed on exactly when the typed text is not all whitespace, and what is passed on has no whitespace at either end |
| FilesPanel.ListedFiles | src/components/FilesPanel.tsx:75-78 | one row per entry at most; every row carries its name's icon and is highlighted iff its name is the current file |
| FilesPanel.ListedRowsAreFiles | src/components/FilesPanel.tsx:76 | every listed row names an entry whose node is a file |
| FilesPanel.EveryFileListed | src/components/FilesPanel.tsx:75-76 | every file entry is listed |
| FilesPanel.AtMostOneActive | src/components/FilesPanel.tsx:78 | with unique keys no name is listed twice, so at most one row is highlighted |
| Sidebar.AllProviders | src/components/Sidebar.tsx:38 | the built-in providers, then the custom ones, in that order |
| Sidebar.FindProvider | src/components/Sidebar.tsx:39 | the first provider with the id, and none exactly when no provider has it |
| Sidebar.FindInConcatenation | src/components/Sidebar.tsx:38-39 | searching the combined list searches the built-ins, and the custom providers only when no built-in matches |
| Sidebar.BuiltinShadowsCustom | src/components/Sidebar.tsx:38-39 | a built-in with the id wins over every custom provider with it |
| Sidebar.CustomReachedWhenNoBuiltin | src/components/Sidebar.tsx:38-39 | a custom provider is found when no built-in has its id |
| Sidebar.AvailableModels | src/components/Sidebar.tsx:40 | a known provider offers exactly its models, in order; an unknown id offers none |
| Sidebar.NavItems | src/components/Sidebar.tsx:30-36 | five navigation entries, none twice: chat, editor, terminal, files, agents, in that order |
| Sidebar.EveryPanelNavigable | src/components/Sidebar.tsx:30-36 | every panel has an entry, so the entries are exactly the five panels |
| Extensions.Filter | src/components/ExtensionsDialog.tsx:109-122 | `filter` keeps exactly the elements satisfying the predicate, never more than were there |
| Extensions.FilterAppend | src/components/ExtensionsDialog.tsx:129 | filtering a concatenation filters each part, so the kept elements keep their order |
| Extensions.Catalog | src/components/ExtensionsDialog.tsx:37-98 | six entries with pairwise distinct ids, all disabled |
| Extensions.InstalledExtensions | src/components/ExtensionsDialog.tsx:109-111 | exactly the installed entries whose id the catalog knows, in their installed order (the list is the filter of the installed list) |
| Extensions.InstalledKeepsOrder | src/components/ExtensionsDialog.tsx:109-111 | the installed list of two runs of entries is that of the first followed by that of the second |
| Extensions.AvailableForInstall | src/components/ExtensionsDialog.tsx:113-115 | exactly the catalog entries whose id is not installed |
| Extensions.InstalledAndAvailableDisjoint | src/components/ExtensionsDialog.tsx:109-115 | no id is both installed and offered for installation |
| Extensions.CatalogCovered | src/components/ExtensionsDialog.tsx:109-115 | every catalog entry is either offered or installed under its id |
| Extensions.Matches | src/components/ExtensionsDialog.tsx:117-121 | an entry that matches passes the type filter (`all` or its own type); with an empty query and `all`, every entry matches |
| Extensions.FilteredAvailable | src/components/ExtensionsDialog.tsx:117-122 | an installable entry is shown iff its name or description contains the query, ignoring case, and the type filter is `all` or its type |
| Extensions.EmptySearchShowsAll | src/components/ExtensionsDialog.tsx:117-122 | an empty query with `all` shows every installable entry, in order |
| Extensions.TypeFilterNarrows | src/components/ExtensionsDialog.tsx:120 | a type filter shows only entries of that type, all of which `all` shows too |
| Extensions.Install | src/components/ExtensionsDialog.tsx:124-126 | one enabled copy of the extension appended at the end; the existing entries unchanged |
| Extensions.Uninstall | src/components/ExtensionsDialog.tsx:128-130 | exactly the entries whose id differs, in their order (the list is the filter by that id): no entry with the id remains, every other entry remains, nothing is added |
| Extensions.UninstallKeepsOrder | src/components/ExtensionsDialog.tsx:128-130 | uninstalling from two runs of entries uninstalls from each run, so the remaining entries keep their relative order |
| Extensions.UninstallUndoesInstall | src/components/ExtensionsDialog.tsx:124-130 | installing an extension whose id is absent and uninstalling it restores the list exactly |
| Extensions.InstallMovesEntry | src/components/ExtensionsDialog.tsx:109-126 | installing a catalog entry takes it off the installable list and puts it, enabled, on the installed one |
| Extensions.Toggle | src/components/ExtensionsDialog.tsx:132-138 | same length, order and ids; entries with the id get the new `enabled`, every other field and entry is unchanged |
| Extensions.ToggleKeepsAvailable | src/components/ExtensionsDialog.tsx:113-138 | toggling does not change what is offered for installation |
| Extensions.ToggleIdempotent | src/components/ExtensionsDialog.tsx:132-138 | toggling twice to the same value is toggling once |
| Constants.AiModels | src/lib/constants.ts:1-11 | nine models with pairwise distinct values |
| Constants.DefaultFileSystem | src/lib/constants.ts:15-64 | three entries with unique keys, each a file whose `name` is its key, including `index.js`, the fallback current file |
| Constants.AgentPrompt | src/lib/constants.ts:66-75 | the prompt is exactly the agent's preamble, a blank line and an opening fence, the code verbatim, and the closing fence; so its length is the preamble's plus the code's plus ten, and the code sits right after the opening fence |
| Constants.Preamble | src/lib/constants.ts:68-74 | every agent's instruction opens with the words `You are a ` and continues after them |
| Constants.CodeOfPromptRoundTrip | src/lib/constants.ts:67-74 | the code can be read back out of every prompt |
| Constants.AgentPromptInjective | src/lib/constants.ts:67-74 | each template is injective in the code |
| Constants.PreamblesDistinct | src/lib/constants.ts:68-74 | the four preambles are pairwise distinct |
| App.EffectiveFile | src/App.tsx:105 | `currentFile \|\| 'index.js'` is never empty, keeps a non-empty name, and otherwise is the fallback |
| App.CurrentProvider | src/App.tsx:31 | the first built-in with the selected id, and the first built-in when none has it |
| App.CurrentApiKey | src/App.tsx:32 | the stored key of the current provider, `''` when there is none |
| App.ResolveModel | src/App.tsx:79 | the selected model unless it is missing or empty, otherwise the provider's first model; none (a `TypeError`) exactly when both are missing |
| App.CurrentContent | src/App.tsx:170-172 | the current file's content, `''` when the node or its content is missing |
| App.ChangedFiles | src/App.tsx:102-114 | the current file (fallback `index.js`) gets the new content and keeps its other fields; a missing entry becomes a node holding only the content; every other key is unchanged; unique keys stay unique |
| App.ChangeKeepsKeys | src/App.tsx:106-112 | editing an existing file keeps the key list and its order |
| App.FileExists | src/App.tsx:123 | the intended guard holds exactly for the own keys of the file system |
| App.FileExistsAsWritten | src/App.tsx:123 | the guard as written holds for every own key, and beyond them only for names `Object.prototype` defines |
| App.InheritedNameRefused | src/App.tsx:123 | a name such as `toString`, which no file has, is refused by the guard as written and accepted by the intended one |
| App.GuardsAgreeOffPrototype | src/App.tsx:123 | for every other name the two guards agree |
| App.CreatedFiles | src/App.tsx:128-135 | the new name holds `{ type: 'file', name, content: '' }` and every other key is unchanged; unique keys stay unique |
| App.CreateAddsOneEntry | src/App.tsx:128-135 | creating a fresh name adds exactly one entry, last in key order, and keeps the keys unique |
| App.CreateBeforeLoadDropsDefaults | src/App.tsx:129 | when the stored file system is missing, the created file is the only entry |
| App.DeletedFiles | src/App.tsx:149-153 | the key is gone and every other key is unchanged; unique keys stay unique |
| App.IsLastFile | src/App.tsx:144 | the delete guard holds exactly when the file system has one entry |
| App.DeleteRemovesOneEntry | src/App.tsx:149-153 | with unique keys, deleting a present key removes exactly one entry and keeps the keys unique |
| App.NextCurrentFile | src/App.tsx:157 | the first key, in key order, of the file system before the delete that differs from the deleted name; `index.js` only when every key is the deleted name, or when that first other key is `''` |
| App.FirstOtherKeyUnique | src/App.tsx:157 | the first key other than the deleted name is one position: `find` stops at the first match |
| App.NextCurrentFileRemains | src/App.tsx:143-158 | when the guard lets the delete through, the next current file is one of the files that remain |
| App.WithAssistantContent | src/App.tsx:86-90 | only the messages with the placeholder's id get the running content; the list keeps its length and every other message |
| App.ThrownText | src/App.tsx:95 | an `Error` shows its own message; any other thrown value shows the fallback text |
| App.WithoutMessage | src/App.tsx:96 | the messages with the placeholder's id are removed and every other message is kept |
| App.WithoutMessageAppend | src/App.tsx:96 | removing from a concatenation removes from each part, so the order of the rest is kept |
| App.RemovalForgetsUpdates | src/App.tsx:84-96 | removing the placeholder undoes every update `onChunk` made to it |
| App.FailedSendKeepsUserMessage | src/App.tsx:62-96 | on the error path the list is what it was before the send plus the user's message |
| App.LastUpdateWins | src/App.tsx:86-90 | a later content update replaces an earlier one |
| App.StreamedMessagesSnoc | src/App.tsx:84-90 | after one more chunk the placeholder holds everything received so far |
| App.PlaceholderShowsStream | src/App.tsx:62-90 | while streaming, the placeholder (last message) shows the concatenation of the chunks so far and the user's message is unchanged |
| App.KeyMissing | src/App.tsx:49 | the key guard holds only for a provider that requires a key, and never once a key is stored |
| App.AppState.Files | src/App.tsx:122 | `fileSystem \|\| DEFAULT_FILE_SYSTEM`: the stored file system when there is one, the default one otherwise |
| App.AppState.constructor | src/App.tsx:18-29 | every stored value at its default: chat panel, first built-in provider and model, no keys or messages, the default files, `index.js` current, nothing running |
| App.AppState.ProviderChange | src/App.tsx:40-46 | the provider is selected, and its first model too when it is a built-in with models; otherwise the model is unchanged; nothing else changes |
| App.AppState.SendMessage | src/App.tsx:48-100 | with a required key missing: the settings open, the error is shown and nothing is sent or appended; otherwise the user's message and the empty placeholder are appended and the call ends as `ChatCallEnded` describes |
| App.AppState.ChatCall | src/App.tsx:75-99 | one streamed call with the user's content; the placeholder holds the running concatenation of the chunks, and is removed with the error shown when the call throws or no model can be chosen; streaming ends in every case |
| App.AppState.FileChange | src/App.tsx:102-114 | the file system becomes `ChangedFiles` of the files before; nothing else changes; the file systems keep unique keys |
| App.AppState.FileSelect | src/App.tsx:116-119 | the file becomes current and the editor is shown; nothing else changes |
| App.AppState.FileCreate | src/App.tsx:121-140 | an existing name is refused and changes nothing; a new one is created (`CreatedFiles`), becomes current, the editor is shown and `Created <name>` is reported; the file systems keep unique keys |
| App.AppState.FileDelete | src/App.tsx:142-161 | the last file is never deleted; otherwise the key is deleted, the current file moves to `NextCurrentFile` only if it was the deleted one, and `Deleted <name>` is reported; the file systems keep unique keys |
| App.AppState.RunAgent | src/App.tsx:163-200 | a missing key opens the settings and blank code is refused, both before the run starts; otherwise the run ends as `AgentRunEnded` describes |
| App.AppState.RunAgentCall | src/App.tsx:179-199 | one non-streamed call with the agent's prompt for the code; the output is the response, or `''` with the error shown; running ends in every case |
| App.ProviderChangeSelectsFirstModel | src/App.tsx:31-46 | after a change to a built-in with models, it is the current provider and its first model is the one a call uses |
| App.UnknownProviderFallsBack | src/App.tsx:31 | an unknown selected provider id falls back to the first built-in |
| App.SelectedModelWins | src/App.tsx:79 | a non-empty selected model is used whatever the provider's models |
| Records.Keys | src/App.tsx:144 | `Object.keys(obj)`: one key per entry, in entry order |
| Records.Get | src/App.tsx:123 | `obj[key]` finds a value exactly for an own key, and that value is the entry's |
| Records.Put | src/App.tsx:106-112 | `{ ...obj, [key]: v }`: the key holds `v`, every other key is unchanged |
| Records.PutKeys | src/App.tsx:128-135 | an existing key keeps its place in key order; a new key goes last |
| Records.Delete | src/App.tsx:149-153 | `delete copy[key]`: the key is gone, every other key is unchanged, and an absent key changes nothing |
| Records.DeleteOneEntry | src/App.tsx:149-153 | with unique keys, one entry fewer when the key is present, keys still unique |
| Records.FirstKeyOtherThan | src/App.tsx:157 | `Object.keys(obj).find(f => f !== key)`: the first other key, and none exactly when every key is `key` |
| Text.Trim | src/components/FilesPanel.tsx:35 | `trim` removes whitespace from both ends only, and what it returns starts and ends with a non-whitespace character |
| Text.TrimIsEmptyIffBlank | src/App.tsx:174 | `!s.trim()` holds exactly when `s` is all whitespace |
| Text.ToLower | src/lib/api.ts:82 | `toLowerCase` keeps the length, turns each capital `A`–`Z` into the same letter in lower case, and changes nothing else |
| Text.ToLowerIdempotent | src/components/ExtensionsDialog.tsx:118-119 | lower-casing twice is lower-casing once |
| Text.StartsWithIffConcat | src/lib/api.ts:43 | `s.startsWith(p)` holds exactly when `s` is `p` followed by some rest |
| Text.Contains | src/components/ExtensionsDialog.tsx:118-119 | a string includes every prefix of it, and never a query longer than itself |
| Text.ContainsIffOccurs | src/components/ExtensionsDialog.tsx:118-119 | `includes` holds exactly when the query occurs at some position |
| Text.Split | src/lib/api.ts:40 | `split` gives at least one part, none containing the separator |
| Text.JoinSplit | src/lib/api.ts:40 | splitting loses nothing: joining the parts with the separator gives the text back |
| Text.SplitJoin | src/lib/api.ts:40 | parts without the separator, joined and split, come back unchanged |
| Text.SplitLast | src/lib/api.ts:78 | the last part is the text after the last separator, and the whole text when there is none |
| Text.ConcatAppend | src/lib/api.ts:51 | accumulating two runs of deltas one after the other gives the concatenation of both |

## Left out

- HTTP plumbing: `fetch`, the `Content-Type` and `HTTP-Referer` headers (the latter reads `window.location.origin`), and `TextDecoder` are outside the model. A response is the values the client reads from it, and the body is its already-decoded text chunks.
- `JSON.parse` and the property reads after it are foreign. The streaming decoder takes them as a parser function; the error and non-streamed paths take the values they would read.
- Api.CallOpenRouter: a non-ok response whose body is not JSON is not modelled. The code has no fallback for it, and the parse error would escape the call.
- `callAI`, `AI_PROVIDERS` and `getAllModels` are imported by `src/App.tsx` and `src/components/Sidebar.tsx`, but they are not part of this model. The built-in providers are a constructor argument of `App.AppState`. What `callAI` does is a parameter of the chat and agent handlers: the chunks it passes to `onChunk`, then what it returns or throws. The model records the call made (`App.AiCall`).
- `safeEval` and the terminal panel: they run arbitrary code with `eval`. `terminalEntries` is therefore not modelled.
- `formatTimestamp` and `Date.now()` depend on the clock and the time zone. Message ids and timestamps are parameters of `App.AppState.SendMessage`.
- React itself is not modelled: rendering, `useKV` persistence across sessions, and the Markdown and Monaco panels. The settings dialog is a form whose props do not match what `App` passes. Toasts are returned values (`App.Toast`), not displayed.
- The `useEffect` that opens the settings when the provider changes without a key is not modelled. It reacts to rendering, not to a handler.
- Concurrency: each handler runs to completion, and each setter's updater is applied to the current state at once. Interleaving with other handlers while `callAI` is awaited is not modelled.
- Folders and `children`: no handler creates them. The listing skips them (`FilesPanel.ListedFiles`).
- Text.ToLower: maps only the ASCII letters A–Z. JavaScript's `toLowerCase` also maps other Unicode capitals, and the strings lowered include user input: the search query (src/components/ExtensionsDialog.tsx:118-119) and the file name (src/lib/api.ts:82, src/components/FilesPanel.tsx:43). A query or file name holding a non-ASCII capital therefore matches differently in the model. For example, JavaScript lowers the Kelvin sign U+212A to `k`, so the query `\u212A` shows "Markdown Preview" and "Tokyo Night Theme", while `Extensions.FilteredAvailable` shows neither.
- String lengths count Dafny characters, not UTF-16 code units. The only length law (`Constants.AgentPrompt`) holds in either unit for its ASCII fences.
- Records.Keys: JavaScript lists integer-like keys first, in numeric order. The model keeps plain insertion order, so `App.NextCurrentFile` differs from the code for a file system holding a file named like `0`.
- An `onChunk` callback that throws is not modelled: the App's callback only updates state.
- ChatPanel's send guard (a trimmed, non-empty message while not streaming) and the create dialog's other setters are user-interface state outside the handlers.

## Findings

| source | as written | input that shows it | evidently intended | confidence | as-written member | corrected member |
|---|---|---|---|---|---|---|
| src/App.tsx:123 | `if (files[filename])` is also truthy for names every object inherits from `Object.prototype` | creating `toString` on the default file system: "File already exists" is shown and nothing is created | refuse only names that are own keys of the file system | not executed | `App.FileExistsAsWritten`, `App.InheritedNameRefused` | `App.FileExists`, used by `App.AppState.FileCreate`, with `App.GuardsAgreeOffPrototype` and `App.CreateAddsOneEntry` |
| src/lib/api.ts:107 | `languageMap[ext] \|\| 'plaintext'` also finds the members of `Object.prototype` | `main.constructor`: the lookup returns the `Object` constructor function instead of a language name | `'plaintext'` for every extension the table does not list | not executed | `Api.LanguageLookupAsWritten`, `Api.ConstructorExtensionFound` | `Api.GetLanguageFromFilename`, with `Api.LookupAgreesOffPrototype` |
