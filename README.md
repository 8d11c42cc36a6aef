# markone: the visual Markdown editor panel, modelled in Dafny

markone is a VS Code extension. It opens a webview panel, the "visual
editor", on a Markdown file. The webview hosts a third-party WYSIWYG
widget. It exchanges three messages with the extension:
- `getContent` asks for the file.
- `setContent` delivers the file.
- `save` sends the edited text back.

This project models the logic of the extension around that widget:

- **The panel** (`src/panel.ts`, module `Panel`):
  - `MarkdownEditorPanel` is a class bound for its whole life to one
    `sourceUri`, which is a `const`.
  - The constructor renders the panel once, then pushes three listener
    registrations into `disposables`.
  - `Dispose` empties the class-level slot and closes the webview panel. Its
    pop loop releases every registration once, last registered first. A
    ghost log `released` records the order, and `Valid()` says no
    registration is ever released twice.
  - The class-level `currentPanel` slot is the object `PanelSlot`.
  - `PanelSlot.CreateOrShow` reuses and reveals a panel already in the slot,
    and ignores the new uri. Otherwise it creates a webview panel and a new
    `MarkdownEditorPanel`.
  - `PanelSlot.Revive` overwrites the slot without disposing what it held.
  - The slot abstracts to the two-state machine `Lifecycle`
    (`Closed | Open(sourceUri)`).
- **The content bridge** (`src/panel.ts`, module `Bridge`):
  - `Route` is the message switch.
  - `SaveContent` and `SendInitialContent` are functions of the document
    store. `Docs` holds the documents open in the host (`buffers`) and what
    storage holds (`disk`).
  - The panel's methods of the same names perform the same awaited steps on
    the host objects and are proved to match these functions.
  - A save replaces the range from (0, 0) to (`lineCount`, 0).
    `Text.FullRangeReplacesAll` proves that this range is the whole document,
    after the host clamps positions past the last line.
  - Every path ends with exactly one notification, or with exactly one
    posted `setContent`.
- **The commands** (`src/extension.ts`, module `Extension`):
  - `markone.openEditor` accepts a document whose language mode is
    `markdown` or whose file name ends in `.md`.
  - `markone.openEditorFromExplorer` accepts a uri whose path ends in `.md`
    or `.markdown`. The check is case-sensitive.
  - The panel deserializer revives a panel only for a saved state with a
    `sourceUri`.
  - Each guard is a function that returns the `Command` the handler carries
    out. Each handler is a method proved to carry out that command.

The host is module `Host`:
- `Workspace` is the document store.
- `Window` is a log of notifications.
- `WebviewPanel` holds a title, visibility and a log of `Rendered`,
  `Revealed`, `Posted` and `Disposed` events.

Two outcomes come from the host itself: what `applyEdit` and `save`
answer. The save path takes them as parameters of type `Step`:
- `Resolves` means the promise resolves to `true`;
- `Declines` means it resolves to `false`;
- `Rejects(reason)` means it rejects.

The model lets `openTextDocument` fail exactly when the document is
neither open nor stored. A stored file that the host cannot read is
treated as readable (see "## Left out"). The save path as written ignores the two booleans, so a declined
step still ends with the success notice. `Bridge.SaveContentAsWritten`
models that, and `Bridge.SaveContent` is the corrected path that the panel
uses (see "## Findings").

Listeners are methods:
- `OnDidChangeViewState` renders the panel again while it is visible.
- `OnDidReceiveMessage` dispatches a message.

Each listener requires that its registration is still held, because the
host calls only registered listeners. Module `Scenarios` runs the
commands and listeners through their contracts:
- opening twice;
- editing `notes.md` from `"# Hi"` to `"# Hello"`;
- closing a panel twice;
- retrying after a failed load.

Some behaviour of the code is easy to miss:
- `dispose` pops the registrations off the end of the list, so they are
  released last registered first (`Dispose`, `DrainedIsReverse`).
- The panel renders again after every view-state change while it is
  visible, not only when it becomes visible again. A move between columns
  counts too (`OnDidChangeViewState`).
- The restore guard is a truthiness test, so an empty `sourceUri` string
  counts as missing (`RestoreTarget`).
- `dispose` empties the slot even when the slot holds a different panel.
  That happens after `revive` has replaced the panel (`Dispose` ensures
  `slot.currentPanel == null` unconditionally).

## Model

| member | source | states |
|---|---|---|
| `Panel.PanelSlot.CreateOrShow` | src/panel.ts:13-40 | With a panel in the slot, the slot keeps the same panel on its own `sourceUri` (the argument is ignored). That panel is revealed once and is visible afterwards. Its title and disposed flag are unchanged, and nothing is created. With an empty slot, the slot holds a fresh panel on a fresh webview panel of view type `markdownEditor`. It is bound to the argument, visible and not disposed, rendered once with its title, and holds three registrations. Abstractly `State()` moves by `AfterCreateOrShow`. |
| `Panel.PanelSlot.Revive` | src/panel.ts:42-44 | The slot holds a fresh panel on the given webview panel and `sourceUri`, whatever it held before; the panel it held is left unchanged, not disposed. |
| `Panel.MarkdownEditorPanel.constructor` | src/panel.ts:46-84 | The panel is bound to the given webview panel and `sourceUri`, renders once with title `Title(sourceUri)`, and holds exactly the registrations `[DidDispose, DidChangeViewState, DidReceiveMessage]` with nothing released; `Valid()` holds. |
| `Panel.MarkdownEditorPanel.Update` | src/panel.ts:130-134 | The webview panel's title becomes `"Visual Editor - "` followed by the base name of the source path, and the shell is rendered once more. |
| `Panel.TitleNamesDocument` | src/panel.ts:132 | The title starts with `"Visual Editor - "`, and the rest is an end of the source path that has no `/` and is preceded by `/` unless it is the whole path. |
| `Panel.MarkdownEditorPanel.OnDidChangeViewState` | src/panel.ts:59-67 | A visible panel is titled and rendered again; a hidden one is left unchanged. |
| `Panel.MarkdownEditorPanel.OnDidReceiveMessage` | src/panel.ts:70-83 | `save` runs exactly the corrected save path (`Bridge.SaveContent`, see "## Findings") with the message's content and posts nothing; `getContent` runs exactly the load path; any other command changes nothing at all. |
| `Panel.MarkdownEditorPanel.SaveContent` | src/panel.ts:86-101 | The awaited steps (open, full replace, save, notify) leave the documents and the one notification that `Bridge.SaveContent` gives. This is the corrected path: a step that resolves to `false` ends with an error (see "## Findings"). |
| `Panel.MarkdownEditorPanel.SendInitialContent` | src/panel.ts:103-114 | The awaited open either posts one `setContent` with the text `Bridge.SendInitialContent` delivers and shows nothing, or shows its one error and posts nothing. |
| `Panel.MarkdownEditorPanel.Dispose` | src/panel.ts:116-128 | The slot is empty and the webview panel is disposed. Its event log gains one `Disposed` the first time and nothing after. `disposables` is empty and `released` grows by the held registrations in pop order (`Drained`). `Valid()` is kept, so no registration is released twice, and a second call releases nothing. |
| `Panel.DrainedIsPermutation` | src/panel.ts:122-127 | The pop loop releases every held registration exactly as many times as it was held. |
| `Panel.DrainedIsReverse` | src/panel.ts:122-127 | The pop loop releases the registrations in reverse registration order. |
| `Panel.PopStep` | src/panel.ts:123-126 | One pop, together with draining what remains, releases the same sequence as draining the whole list. |
| `Panel.OpenPanelStaysBound` | src/panel.ts:19-22 | Once a panel is open, any number of further `createOrShow` calls leaves it bound to its own uri. |
| `Panel.FirstOpenWins` | src/panel.ts:13-40 | From an empty slot, any non-empty run of `createOrShow` calls leaves one panel, bound to the first uri. |
| `Bridge.Route` | src/panel.ts:72-79 | A message is a save request exactly when its command is `save` (carrying its content), a content request exactly when it is `getContent`, and ignored exactly otherwise. |
| `Bridge.SaveContentAsWritten` | src/panel.ts:86-101 | The code as written: the success notice is shown exactly when the document can be opened and neither the edit nor the save rejects, even if one of them resolves to `false`. An error leaves storage unchanged, and so does a save that resolves to `false`. |
| `Bridge.SuccessNoticeWithoutStoring` | src/panel.ts:95-97 | notes.md stored as `"# Hi"`: saving `"# Hello"` when the edit, or the save, resolves to `false` shows the success notice while storage still reads `"# Hi"`. |
| `Bridge.CheckedSaveAgreesWhenNothingDeclines` | src/panel.ts:86-101 | When neither step resolves to `false`, the corrected path and the path as written give the same documents and the same notice. |
| `Bridge.SaveContent` | src/panel.ts:86-101 | The corrected path. The outcome is the success notice exactly when the document can be opened and both the edit and the save resolve to `true`; then both the open document and storage hold exactly `content` and nothing else changes. Otherwise there is one error starting with `"Failed to save: "`, and storage is unchanged. A failure before the edit also leaves every open document unchanged. |
| `Bridge.SendInitialContent` | src/panel.ts:103-114 | The text is delivered exactly when the document can be opened. It is the open document's current text, or the stored text when the document was not open. Storage is unchanged. Otherwise the one error starts with `"Failed to load content: "`. |
| `Bridge.LoadThenSaveUnchanged` | src/panel.ts:86-114 | Saving exactly the delivered text succeeds, leaves the open documents as the load left them, and storage then holds that text. |
| `Bridge.SaveThenLoad` | src/panel.ts:86-114 | After a save that persists, the next load delivers exactly the saved text. |
| `Bridge.LoadFailureChangesNothing` | src/panel.ts:103-114 | A load fails only for a document the host cannot open. A save of it then also fails and changes no document. |
| `Bridge.EditNotesScenario` | src/panel.ts:86-114 | notes.md holding `"# Hi"` is delivered as `"# Hi"`. Saving `"# Hello"` leaves `"# Hello"` in the open document and in storage, with the success notice. |
| `Text.FullRangeReplacesAll` | src/panel.ts:90-94 | Replacing the range (0, 0) to (`lineCount`, 0) leaves exactly the new content, whatever the old text. |
| `Text.PastLastLineIsEnd` | src/panel.ts:92 | A position on or past line `lineCount` stands for the end of the document. |
| `Text.BasenameIsLastSegment` | src/panel.ts:132 | The base-name stand-in is the longest end of the path without `/`. |
| `Text.EndsWithIffStem` | src/extension.ts:26 | `endsWith(suffix)` holds exactly when the string is some stem followed by `suffix`. |
| `Extension.OpenEditorCommand` | src/extension.ts:15-33 | No active editor gives the "No active editor found" error. Otherwise the command calls `createOrShow` on exactly the document's uri iff its language is `markdown` or its file name ends in `.md`, and gives the "Please open a markdown (.md) file" error otherwise. |
| `Extension.OpenEditor` | src/extension.ts:15-33 | The handler shows exactly the command's one error and leaves the slot and its panel untouched. Otherwise it shows nothing and does what `createOrShow` on the command's uri does. |
| `Extension.MarkdownDocumentsOpen` | src/extension.ts:26 | Any file named `<stem>.md` opens whatever its language mode, and any `markdown` document opens whatever its name, each on its own uri. |
| `Extension.OpenFromExplorerCommand` | src/extension.ts:48-54 | The command calls `createOrShow` on exactly the given uri iff a uri is given and its path ends in `.md` or `.markdown`; otherwise it is the "Please select a markdown file." error. |
| `Extension.OpenEditorFromExplorer` | src/extension.ts:48-54 | The handler shows exactly the command's one error and leaves the slot and its panel untouched. Otherwise it shows nothing and does what `createOrShow` on the command's uri does. |
| `Extension.MarkdownPathIffExtension` | src/extension.ts:49 | A path passes the explorer's guard exactly when it is some stem followed by `.md` or by `.markdown`. |
| `Extension.ExplorerGuardIsCaseSensitive` | src/extension.ts:49 | Paths ending in `.MD` or `.Markdown` are refused with the error. |
| `Extension.RestoreTarget` | src/extension.ts:40-42 | A panel is revived exactly when the state is present and its `sourceUri` is present and non-empty. It is revived on the parse of that `sourceUri`. |
| `Extension.DeserializeWebviewPanel` | src/extension.ts:38-43 | Without a target the slot and the webview panel are unchanged. With one, the slot holds a fresh valid panel on that webview panel, bound to the target. The panel holds the three registrations with none released. The webview panel is titled after the target and rendered once more. A panel the slot held before is left unchanged. |
| `Scenarios.OpenTwice` | src/panel.ts:19-22 | Opening the editor on two markdown documents in a row leaves the panel bound to the first document. |
| `Scenarios.EditNotes` | src/panel.ts:70-83 | Through the listeners: the webview receives `"# Hi"` after one render, and after the save storage reads `"# Hello"`. |
| `Scenarios.CloseTwice` | src/panel.ts:116-128 | Closing twice leaves the slot empty. The three registrations are released once each, in the order message, view state, dispose. |
| `Scenarios.RetryAfterLoadFailure` | src/panel.ts:103-114 | A failed load shows one error and posts nothing. After the file appears, opening again reveals the same panel, and the next load posts the text. |

## Findings

| source | as written | input that shows it | evidently intended | confidence | as-written member | corrected member |
|---|---|---|---|---|---|---|
| src/panel.ts:95-97 | The booleans returned by `applyEdit` and `save` are ignored, and the success notice is shown after any path that does not throw. | notes.md stored as `"# Hi"`, the webview saves `"# Hello"`, and `applyEdit` or `save` resolves to `false`: "Markdown file saved successfully!" is shown while storage still reads `"# Hi"`. | Show success only when the edit was applied and the document was saved; otherwise show a `Failed to save: ` error. | medium, not executed | `Bridge.SuccessNoticeWithoutStoring` | `Bridge.SaveContent` |

## Left out

- The webview document built by `_getHtmlForWebview` and its script (src/panel.ts:136-310) are not modelled. That covers the Vditor widget loaded from a CDN, theme detection, keyboard and resize handling, and the `pendingContent` buffering. Rendering is recorded only as a `Rendered(title)` event.
- The column choice is not modelled. `createOrShow` picks the active editor's `viewColumn` or column one, and `reveal` takes a column; both are editor layout.
- The `createWebviewPanel` options and the panel's `extensionUri` are not modelled. `extensionUri` is used only to build the resource roots.
- `path.basename` is Node library code. `Text.Basename` is a POSIX stand-in that keeps what follows the last `/`. It does not strip trailing separators or handle Windows `\` separators.
- `vscode.Uri.parse` is a stand-in (`Extension.ParseUri`). The model names a uri by its path.
- The host's line counting is simplified: only `\n` counts as a line break. The full-range replacement proved in `Text.FullRangeReplacesAll` does not depend on this.
- Panel.PanelSlot.CreateOrShow: `createWebviewPanel` (src/panel.ts:25) and `reveal` can throw, and nothing catches it. The model treats both as always succeeding, so an exception reaching the command's caller is not modelled.
- Bridge.SendInitialContent: a stored file that is not open but that the host cannot read is modelled as loadable. Examples are a file without read permission, or one the host refuses as binary or too large. For such a file `openTextDocument` rejects, and the source then shows `Failed to load content: …` (src/panel.ts:111-112) or `Failed to save: …` (src/panel.ts:98-99). The model's open fails only for a document that is neither open nor stored. So `Bridge.SendInitialContent`, `Bridge.SaveContent`, `Bridge.SaveContentAsWritten`, `Bridge.LoadThenSaveUnchanged` and `Bridge.LoadFailureChangesNothing` do not cover it.
- The error text after the `Failed to save: ` and `Failed to load content: ` prefixes is host-defined. The model uses the rejection reason, and `cannot open <path>` for a document that does not exist.
- A `save` message without a `content` field is not modelled: every model message carries a string.
- `async`/`await` interleaving is not modelled. Each listener runs to completion, as on the host's single event loop. A save that is still in flight when the panel closes is therefore not modelled either.
- Re-entrant disposal is not modelled. The host fires the dispose listener while `_panel.dispose()` runs. The inner call would drain the list, and the outer loop would find it empty, so the registrations released are the same.
- The `if (x)` test in the pop loop has no counterpart. A popped entry is never `undefined` while the list is non-empty.
- The promise returned by `postMessage` and posting to a disposed webview are not modelled.
- `activate`'s registration plumbing, the empty `deactivate`, console output and `verify-extension.js` are not modelled. They contain no behaviour beyond I/O.
