/** The extension's commands: `markone.openEditor` on the active editor's
    document, `markone.openEditorFromExplorer` on a file picked in the
    explorer, and the deserializer that restores a panel after a restart.
    Each guard is a pure function saying what the command does; each handler
    is a method proved to do it. */
module Extension {
  import opened Wrappers
  import opened Host
  import Text
  import Panel

  const NoActiveEditorMessage := "No active editor found. Please open a markdown file first."
  const NotMarkdownMessage := "Please open a markdown (.md) file to use the visual editor."
  const SelectMarkdownMessage := "Please select a markdown file."

  /** The active editor's guard: the language mode is markdown, or the file name ends in `.md`. */
  predicate IsMarkdownDocument(d: TextDocument)
  {
    d.languageId == "markdown" || Text.EndsWith(d.fileName, ".md")
  }

  /** The explorer's guard: the path ends in `.md` or `.markdown`, case-sensitively. */
  predicate IsMarkdownPath(fsPath: string)
  {
    Text.EndsWith(fsPath, ".md") || Text.EndsWith(fsPath, ".markdown")
  }

  /** What a command does: report an error, or call `createOrShow` on a uri. */
  datatype Command = ShowError(message: string) | CreateOrShow(uri: Uri)

  /** `markone.openEditor` with `activeEditor` holding the active editor's document, if any. */
  function OpenEditorCommand(activeEditor: Option<TextDocument>): (c: Command)
    ensures activeEditor.None? ==> c == ShowError(NoActiveEditorMessage)
    ensures activeEditor.Some? ==>
      (c.CreateOrShow? <==> IsMarkdownDocument(activeEditor.value)) &&
      (c.CreateOrShow? ==> c.uri == activeEditor.value.uri) &&
      (c.ShowError? ==> c.message == NotMarkdownMessage)
  {
    match activeEditor
    case None => ShowError(NoActiveEditorMessage)
    case Some(d) => if IsMarkdownDocument(d) then CreateOrShow(d.uri) else ShowError(NotMarkdownMessage)
  }

  /** `markone.openEditorFromExplorer` with the selected uri, if any. */
  function OpenFromExplorerCommand(uri: Option<Uri>): (c: Command)
    ensures c.CreateOrShow? <==> uri.Some? && IsMarkdownPath(uri.value.fsPath)
    ensures c.CreateOrShow? ==> c.uri == uri.value
    ensures c.ShowError? ==> c.message == SelectMarkdownMessage
  {
    if uri.Some? && IsMarkdownPath(uri.value.fsPath) then CreateOrShow(uri.value) else ShowError(SelectMarkdownMessage)
  }

  /** The state a webview panel was serialized with; `sourceUri` may be missing. */
  datatype SavedState = SavedState(sourceUri: Option<string>)

  /** Stand-in for `vscode.Uri.parse`: the model names a uri by its path. */
  function ParseUri(s: string): Uri
  {
    Uri(s)
  }

  /** The document `deserializeWebviewPanel` revives a panel on: only a state
      that is present and carries a non-empty `sourceUri` (JavaScript treats
      an empty string as false) names one. */
  function RestoreTarget(state: Option<SavedState>): (r: Option<Uri>)
    ensures r.Some? <==> state.Some? && state.value.sourceUri.Some? && state.value.sourceUri.value != ""
    ensures r.Some? ==> r.value == ParseUri(state.value.sourceUri.value)
  {
    match state
    case None => None
    case Some(s) =>
      match s.sourceUri
      case None => None
      case Some(u) => if u != "" then Some(ParseUri(u)) else None
  }

  /** Exactly the paths with stem `.md` or stem `.markdown` pass the explorer's guard. */
  lemma MarkdownPathIffExtension(fsPath: string)
    ensures IsMarkdownPath(fsPath) <==>
      (exists stem :: fsPath == stem + ".md") || (exists stem :: fsPath == stem + ".markdown")
  {
    Text.EndsWithIffStem(fsPath, ".md");
    Text.EndsWithIffStem(fsPath, ".markdown");
  }

  /** Any file whose name ends in `.md` opens, whatever its language mode,
      and so does any markdown document, whatever its name. */
  lemma MarkdownDocumentsOpen(u: Uri, stem: string, name: string, languageId: string)
    ensures OpenEditorCommand(Some(TextDocument(u, stem + ".md", languageId))) == CreateOrShow(u)
    ensures OpenEditorCommand(Some(TextDocument(u, name, "markdown"))) == CreateOrShow(u)
  {
  }

  /** The explorer's guard does not fold case: `.MD` and `.Markdown` are refused. */
  lemma ExplorerGuardIsCaseSensitive(stem: string)
    ensures OpenFromExplorerCommand(Some(Uri(stem + ".MD"))) == ShowError(SelectMarkdownMessage)
    ensures OpenFromExplorerCommand(Some(Uri(stem + ".Markdown"))) == ShowError(SelectMarkdownMessage)
  {
  }

  /** The handler of `markone.openEditor`. */
  method OpenEditor(activeEditor: Option<TextDocument>, slot: Panel.PanelSlot, window: Window)
    modifies slot, slot.Shown(), window
    ensures match OpenEditorCommand(activeEditor)
      case ShowError(message) =>
        window.notices == old(window.notices) + [Error(message)] && unchanged(slot) &&
        (slot.currentPanel != null ==> unchanged(slot.currentPanel.panel))
      case CreateOrShow(u) =>
        window.notices == old(window.notices) && slot.CreatedOrShown(u)
  {
    if activeEditor.None? {
      window.ShowErrorMessage(NoActiveEditorMessage);
      return;
    }
    var document := activeEditor.value;
    if document.languageId != "markdown" && !Text.EndsWith(document.fileName, ".md") {
      window.ShowErrorMessage(NotMarkdownMessage);
      return;
    }
    slot.CreateOrShow(document.uri);
  }

  /** The handler of `markone.openEditorFromExplorer`. */
  method OpenEditorFromExplorer(uri: Option<Uri>, slot: Panel.PanelSlot, window: Window)
    modifies slot, slot.Shown(), window
    ensures match OpenFromExplorerCommand(uri)
      case ShowError(message) =>
        window.notices == old(window.notices) + [Error(message)] && unchanged(slot) &&
        (slot.currentPanel != null ==> unchanged(slot.currentPanel.panel))
      case CreateOrShow(u) =>
        window.notices == old(window.notices) && slot.CreatedOrShown(u)
  {
    if uri.Some? && (Text.EndsWith(uri.value.fsPath, ".md") || Text.EndsWith(uri.value.fsPath, ".markdown")) {
      slot.CreateOrShow(uri.value);
    } else {
      window.ShowErrorMessage(SelectMarkdownMessage);
    }
  }

  /** `deserializeWebviewPanel(webviewPanel, state)`: revives a panel on the
      saved document, or does nothing when the state names none. */
  method DeserializeWebviewPanel(webviewPanel: WebviewPanel, state: Option<SavedState>, slot: Panel.PanelSlot)
    modifies slot, webviewPanel`title, webviewPanel`events
    ensures match RestoreTarget(state)
      case None => unchanged(slot, webviewPanel)
      case Some(u) =>
        slot.State() == Panel.Open(u) && slot.currentPanel.panel == webviewPanel &&
        fresh(slot.currentPanel) && slot.currentPanel.Valid() &&
        slot.currentPanel.disposables == Panel.Subscriptions() && slot.currentPanel.released == [] &&
        webviewPanel.title == Panel.Title(u) &&
        webviewPanel.events == old(webviewPanel.events) + [Rendered(Panel.Title(u))] &&
        (old(slot.currentPanel) != null ==> unchanged(old(slot.currentPanel)))
  {
    if state.Some? && state.value.sourceUri.Some? && state.value.sourceUri.value != "" {
      slot.Revive(webviewPanel, ParseUri(state.value.sourceUri.value));
    }
  }
}
