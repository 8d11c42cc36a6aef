/** The parts of the VS Code API the panel and its commands use, modelled as
    plain state: documents and their storage (`vscode.workspace`),
    notifications (`vscode.window`) and webview panels. What the host does on
    its own (declining or failing an edit or a save) is given to the model as a `Step`. */
module Host {
  import opened Wrappers
  import Text

  /** A `vscode.Uri`, identified by the file-system path it denotes. */
  datatype Uri = Uri(fsPath: string)

  /** The document of a text editor, with the fields the commands read. */
  datatype TextDocument = TextDocument(uri: Uri, fileName: string, languageId: string)

  /** How an awaited host call that reports success ends: it resolves `true`
      (done), resolves `false` (the host declined and did nothing), or
      rejects with `reason`. */
  datatype Step = Resolves | Declines | Rejects(reason: string)

  /** A notification shown with `showInformationMessage` or `showErrorMessage`. */
  datatype Notice = Info(text: string) | Error(text: string)

  /** A message the extension posts to the webview. */
  datatype OutMessage = SetContent(content: string)

  /** What happens to a webview panel, in order. */
  datatype PanelEvent = Rendered(title: string) | Revealed | Posted(message: OutMessage) | Disposed

  /** Text documents: `buffers` holds the documents open in the host, with
      their unsaved edits; `disk` holds what storage has. */
  datatype Docs = Docs(buffers: map<Uri, string>, disk: map<Uri, string>)

  /** `workspace.openTextDocument(u)` followed by `getText()`: an open
      document is returned as it is, a stored one is loaded first, and an
      unknown one is rejected. */
  function Opened(docs: Docs, u: Uri): (r: Result<(Docs, string), string>)
    ensures r.Success? <==> u in docs.buffers || u in docs.disk
    ensures r.Success? ==> r.value.0.disk == docs.disk
    ensures r.Success? ==> r.value.0.buffers == docs.buffers[u := r.value.1]
    ensures r.Success? && u in docs.buffers ==> r.value.1 == docs.buffers[u]
    ensures r.Success? && u !in docs.buffers ==> r.value.1 == docs.disk[u]
  {
    if u in docs.buffers then Success((docs, docs.buffers[u]))
    else if u in docs.disk then Success((docs.(buffers := docs.buffers[u := docs.disk[u]]), docs.disk[u]))
    else Failure("cannot open " + u.fsPath)
  }

  /** The document store of `vscode.workspace`. */
  class Workspace {
    var docs: Docs

    constructor (disk: map<Uri, string>)
      ensures docs == Docs(map[], disk)
    {
      docs := Docs(map[], disk);
    }

    /** `openTextDocument(u)` and `getText()`. */
    method OpenTextDocument(u: Uri) returns (r: Result<string, string>)
      modifies this
      ensures var o := Opened(old(docs), u);
        (r.Success? <==> o.Success?) &&
        (r.Success? ==> r.value == o.value.1 && docs == o.value.0) &&
        (r.Failure? ==> r.error == o.error && docs == old(docs))
    {
      var o := Opened(docs, u);
      if o.Success? {
        docs := o.value.0;
        r := Success(o.value.1);
      } else {
        r := Failure(o.error);
      }
    }

    /** `applyEdit` of one `replace` on the open document `u`; `step` says
        whether the host applies it, declines it or rejects. */
    method ApplyEdit(u: Uri, range: Text.Range, content: string, step: Step) returns (r: Step)
      requires u in docs.buffers
      modifies this
      ensures r == step
      ensures docs == if step.Resolves?
        then old(docs).(buffers := old(docs.buffers)[u := Text.Replace(old(docs.buffers)[u], range, content)])
        else old(docs)
    {
      if step.Resolves? {
        docs := docs.(buffers := docs.buffers[u := Text.Replace(docs.buffers[u], range, content)]);
      }
      r := step;
    }

    /** `document.save()` on the open document `u`: storage receives its text. */
    method Save(u: Uri, step: Step) returns (r: Step)
      requires u in docs.buffers
      modifies this
      ensures r == step
      ensures docs == if step.Resolves? then old(docs).(disk := old(docs.disk)[u := old(docs.buffers)[u]]) else old(docs)
    {
      if step.Resolves? {
        docs := docs.(disk := docs.disk[u := docs.buffers[u]]);
      }
      r := step;
    }
  }

  /** The notifications of `vscode.window`, as a log. */
  class Window {
    var notices: seq<Notice>

    constructor ()
      ensures notices == []
    {
      notices := [];
    }

    method ShowErrorMessage(text: string)
      modifies this
      ensures notices == old(notices) + [Error(text)]
    {
      notices := notices + [Error(text)];
    }

    method ShowInformationMessage(text: string)
      modifies this
      ensures notices == old(notices) + [Info(text)]
    {
      notices := notices + [Info(text)];
    }
  }

  /** A `vscode.WebviewPanel`: its title, visibility and what happened to it. */
  class WebviewPanel {
    const viewType: string
    var title: string
    var visible: bool
    var disposed: bool
    var events: seq<PanelEvent>

    /** `window.createWebviewPanel(viewType, title, ...)`. */
    constructor (viewType: string, title: string)
      ensures this.viewType == viewType && this.title == title
      ensures visible && !disposed && events == []
    {
      this.viewType := viewType;
      this.title := title;
      visible := true;
      disposed := false;
      events := [];
    }

    /** Setting `webview.html`: the panel shows its shell again. */
    method Render()
      modifies this`events
      ensures events == old(events) + [Rendered(title)]
    {
      events := events + [Rendered(title)];
    }

    /** `reveal(...)`: the panel is shown. */
    method Reveal()
      modifies this`visible, this`events
      ensures visible
      ensures events == old(events) + [Revealed]
    {
      visible := true;
      events := events + [Revealed];
    }

    /** `webview.postMessage(message)`. */
    method PostMessage(message: OutMessage)
      modifies this`events
      ensures events == old(events) + [Posted(message)]
    {
      events := events + [Posted(message)];
    }

    /** `dispose()`: closing a panel that is already closed does nothing. */
    method Dispose()
      modifies this`disposed, this`events
      ensures disposed
      ensures events == old(events) + if old(disposed) then [] else [Disposed]
    {
      if !disposed {
        disposed := true;
        events := events + [Disposed];
      }
    }
  }
}
