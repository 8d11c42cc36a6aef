/** Runs of the commands and listeners, proved from their contracts alone:
    what a user sees when opening twice, editing a file, closing a panel
    twice, or retrying after a failed load. */
module Scenarios {
  import opened Wrappers
  import opened Host
  import Bridge
  import Panel
  import Extension

  /** Opening the editor on two markdown documents in a row leaves one panel, on the first. */
  method OpenTwice(first: TextDocument, second: TextDocument) returns (bound: Option<Uri>)
    requires Extension.IsMarkdownDocument(first) && Extension.IsMarkdownDocument(second)
    ensures bound == Some(first.uri)
  {
    var slot := new Panel.PanelSlot();
    var window := new Window();
    Extension.OpenEditor(Some(first), slot, window);
    Extension.OpenEditor(Some(second), slot, window);
    assert slot.State() == Panel.Open(first.uri);
    bound := Some(slot.currentPanel.sourceUri);
  }

  /** notes.md holds "# Hi": the webview asks for it and receives it, the
      user saves "# Hello", and storage then reads "# Hello". */
  method EditNotes() returns (stored: string, posted: seq<PanelEvent>)
    ensures stored == "# Hello"
    ensures posted == [Rendered(Panel.Title(Uri("notes.md"))), Posted(SetContent("# Hi"))]
  {
    var notes := Uri("notes.md");
    var workspace := new Workspace(map[notes := "# Hi"]);
    var window := new Window();
    var slot := new Panel.PanelSlot();
    Extension.OpenEditorFromExplorer(Some(notes), slot, window);
    var editor := slot.currentPanel;
    assert Panel.DidReceiveMessage in editor.disposables;
    editor.OnDidReceiveMessage(Bridge.Message(Bridge.GetContentCommand, ""), workspace, window, Resolves, Resolves);
    assert workspace.docs == Docs(map[notes := "# Hi"], map[notes := "# Hi"]);
    posted := editor.panel.events;
    editor.OnDidReceiveMessage(Bridge.Message(Bridge.SaveCommand, "# Hello"), workspace, window, Resolves, Resolves);
    stored := workspace.docs.disk[notes];
  }

  /** Closing a panel twice releases its three registrations once each, last
      registered first, and the second close releases nothing. */
  method CloseTwice(u: Uri) returns (editor: Panel.MarkdownEditorPanel, slot: Panel.PanelSlot)
    ensures fresh(editor) && fresh(slot) && slot.State() == Panel.Closed
    ensures editor.disposables == []
    ensures editor.released == [Panel.DidReceiveMessage, Panel.DidChangeViewState, Panel.DidDispose]
  {
    slot := new Panel.PanelSlot();
    slot.CreateOrShow(u);
    editor := slot.currentPanel;
    editor.Dispose(slot);
    assert editor.released == [Panel.DidReceiveMessage, Panel.DidChangeViewState, Panel.DidDispose];
    editor.Dispose(slot);
  }

  /** A load that fails shows one error and posts nothing; once the file
      exists, opening again still reaches the same panel and loads it. */
  method RetryAfterLoadFailure(u: Uri, text: string) returns (notices: seq<Notice>, posted: seq<PanelEvent>)
    requires Extension.IsMarkdownPath(u.fsPath)
    ensures |notices| == 1 && notices[0].Error?
    ensures posted == [Rendered(Panel.Title(u)), Revealed, Posted(SetContent(text))]
  {
    var workspace := new Workspace(map[]);
    var window := new Window();
    var slot := new Panel.PanelSlot();
    Extension.OpenEditorFromExplorer(Some(u), slot, window);
    var editor := slot.currentPanel;
    assert Bridge.SendInitialContent(workspace.docs, u).LoadFailed?;
    editor.OnDidReceiveMessage(Bridge.Message(Bridge.GetContentCommand, ""), workspace, window, Resolves, Resolves);
    notices := window.notices;
    workspace.docs := Docs(map[], map[u := text]);
    Extension.OpenEditorFromExplorer(Some(u), slot, window);
    assert Bridge.SendInitialContent(workspace.docs, u).Delivered?;
    editor.OnDidReceiveMessage(Bridge.Message(Bridge.GetContentCommand, ""), workspace, window, Resolves, Resolves);
    posted := editor.panel.events;
  }
}
