/** `MarkdownEditorPanel`: the one editor panel of the process, bound for
    its whole life to the document it was opened on, with the listener
    registrations it releases when it is closed. The class-level slot
    `currentPanel` is the object `PanelSlot`, passed to the methods that
    read or write it. */
module Panel {
  import opened Host
  import Text
  import Bridge

  const ViewType := "markdownEditor"
  const InitialTitle := "Visual Markdown Editor"
  const TitlePrefix := "Visual Editor - "

  /** The listeners a panel registers, each of which hands back a registration. */
  datatype Listener = DidDispose | DidChangeViewState | DidReceiveMessage

  /** The registrations the constructor pushes into `_disposables`, in order. */
  function Subscriptions(): seq<Listener>
  {
    [DidDispose, DidChangeViewState, DidReceiveMessage]
  }

  /** The title `_update` gives the panel for the document at `u`. */
  function Title(u: Uri): string
  {
    TitlePrefix + Text.Basename(u.fsPath)
  }

  /** The title is the prefix followed by the last segment of the document's path. */
  lemma TitleNamesDocument(u: Uri)
    ensures var t := Title(u);
      |TitlePrefix| <= |t| && t[..|TitlePrefix|] == TitlePrefix &&
      var name := t[|TitlePrefix|..];
      '/' !in name && Text.EndsWith(u.fsPath, name) &&
      (|name| < |u.fsPath| ==> u.fsPath[|u.fsPath| - |name| - 1] == '/')
  {
    Text.BasenameIsLastSegment(u.fsPath);
    assert Title(u)[|TitlePrefix|..] == Text.Basename(u.fsPath);
  }

  /** The order in which `while (length) pop()` hands out the entries of a list. */
  function Drained(s: seq<Listener>): seq<Listener>
  {
    if s == [] then [] else [s[|s| - 1]] + Drained(s[..|s| - 1])
  }

  /** One turn of the pop loop: releasing the last entry and draining the rest
      releases the same as draining the whole list. */
  lemma {:induction false} PopStep(done: seq<Listener>, rest: seq<Listener>)
    requires rest != []
    ensures (done + [rest[|rest| - 1]]) + Drained(rest[..|rest| - 1]) == done + Drained(rest)
  {
    var last, tail := [rest[|rest| - 1]], Drained(rest[..|rest| - 1]);
    assert Drained(rest) == last + tail;
    assert (done + last) + tail == done + (last + tail);
  }

  /** Draining hands out every entry exactly as often as it was registered. */
  lemma {:induction false} DrainedIsPermutation(s: seq<Listener>)
    ensures multiset(Drained(s)) == multiset(s)
  {
    if s != [] {
      DrainedIsPermutation(s[..|s| - 1]);
      assert s == s[..|s| - 1] + [s[|s| - 1]];
    }
  }

  /** Draining hands out the entries in reverse registration order. */
  lemma {:induction false} DrainedIsReverse(s: seq<Listener>, k: nat)
    requires k < |s|
    ensures |Drained(s)| == |s| && Drained(s)[k] == s[|s| - 1 - k]
  {
    if k > 0 {
      DrainedIsReverse(s[..|s| - 1], k - 1);
    } else if |s| > 1 {
      DrainedIsReverse(s[..|s| - 1], 0);
    } else {
      assert Drained(s[..0]) == [];
    }
  }

  /** Whether a panel is open, and on which document: the state the slot abstracts to. */
  datatype Lifecycle = Closed | Open(sourceUri: Uri)

  /** `createOrShow(u)`: an open panel stays as it is; otherwise one opens on `u`. */
  function AfterCreateOrShow(s: Lifecycle, u: Uri): Lifecycle
  {
    if s.Open? then s else Open(u)
  }

  /** `createOrShow` applied to each uri of `us` in turn. */
  function AfterEach(s: Lifecycle, us: seq<Uri>): Lifecycle
    decreases |us|
  {
    if us == [] then s else AfterEach(AfterCreateOrShow(s, us[0]), us[1..])
  }

  /** Once a panel is open, no number of further opens rebinds it. */
  lemma {:induction false} OpenPanelStaysBound(s: Lifecycle, us: seq<Uri>)
    requires s.Open?
    ensures AfterEach(s, us) == s
    decreases |us|
  {
    if us != [] {
      OpenPanelStaysBound(AfterCreateOrShow(s, us[0]), us[1..]);
    }
  }

  /** From no panel, any run of opens leaves one panel, bound to the first uri. */
  lemma {:induction false} FirstOpenWins(us: seq<Uri>)
    requires |us| > 0
    ensures AfterEach(Closed, us) == Open(us[0])
  {
    OpenPanelStaysBound(Open(us[0]), us[1..]);
  }

  class MarkdownEditorPanel {
    const panel: WebviewPanel
    const sourceUri: Uri
    var disposables: seq<Listener>
    /** The registrations released so far, in the order they were released. */
    ghost var released: seq<Listener>

    /** Every registration is either still held or released, and none is released twice. */
    ghost predicate Valid()
      reads this
    {
      multiset(disposables) + multiset(released) == multiset(Subscriptions())
    }

    /** Renders the panel once, then registers the dispose, view-state and message listeners. */
    constructor (panel: WebviewPanel, sourceUri: Uri)
      modifies panel`title, panel`events
      ensures this.panel == panel && this.sourceUri == sourceUri
      ensures panel.title == Title(sourceUri)
      ensures panel.events == old(panel.events) + [Rendered(Title(sourceUri))]
      ensures disposables == Subscriptions() && released == []
      ensures Valid()
    {
      this.panel := panel;
      this.sourceUri := sourceUri;
      disposables := [];
      released := [];
      new;
      Update();
      disposables := disposables + [DidDispose];
      disposables := disposables + [DidChangeViewState];
      disposables := disposables + [DidReceiveMessage];
    }

    /** `_update`: titles the panel after its document and renders its shell. */
    method Update()
      modifies panel`title, panel`events
      ensures panel.title == Title(sourceUri)
      ensures panel.events == old(panel.events) + [Rendered(Title(sourceUri))]
    {
      panel.title := Title(sourceUri);
      panel.Render();
    }

    /** The view-state listener: a panel that is visible is rendered again. */
    method OnDidChangeViewState()
      requires DidChangeViewState in disposables
      modifies panel`title, panel`events
      ensures if panel.visible
        then panel.title == Title(sourceUri) && panel.events == old(panel.events) + [Rendered(Title(sourceUri))]
        else unchanged(panel)
    {
      if panel.visible {
        Update();
      }
    }

    /** `_saveContent(content)`: the steps of `Bridge.SaveContent`, each
        awaited in turn, with the results of `applyEdit` and `save` checked. */
    method SaveContent(content: string, workspace: Workspace, window: Window, edit: Step, persist: Step)
      modifies workspace, window
      ensures var r := Bridge.SaveContent(old(workspace.docs), sourceUri, content, edit, persist);
        workspace.docs == r.docs && window.notices == old(window.notices) + [r.notice]
    {
      var document := workspace.OpenTextDocument(sourceUri);
      if document.Failure? {
        window.ShowErrorMessage(Bridge.SaveFailedPrefix + document.error);
        return;
      }
      var text := document.value;
      var applied := workspace.ApplyEdit(sourceUri, Bridge.WholeDocument(text), content, edit);
      if !applied.Resolves? {
        window.ShowErrorMessage(Bridge.SaveFailedPrefix + Bridge.Reason(applied, Bridge.EditDeclined));
        return;
      }
      Text.FullRangeReplacesAll(text, content);
      var saved := workspace.Save(sourceUri, persist);
      if !saved.Resolves? {
        window.ShowErrorMessage(Bridge.SaveFailedPrefix + Bridge.Reason(saved, Bridge.SaveDeclined));
        return;
      }
      window.ShowInformationMessage(Bridge.SavedMessage);
    }

    /** The effect of a load with outcome `r`: the text is posted to the
        webview, or the one error is shown; nothing else changes. */
    twostate predicate Loaded(r: Bridge.LoadOutcome, workspace: Workspace, window: Window)
      reads workspace, window, panel
    {
      match r
      case Delivered(docs, content) =>
        workspace.docs == docs && window.notices == old(window.notices) &&
        panel.events == old(panel.events) + [Posted(SetContent(content))]
      case LoadFailed(message) =>
        workspace.docs == old(workspace.docs) && window.notices == old(window.notices) + [Error(message)] &&
        panel.events == old(panel.events)
    }

    /** `_sendInitialContent()`: posts the document's text, or reports why it could not. */
    method SendInitialContent(workspace: Workspace, window: Window)
      modifies workspace, window, panel`events
      ensures Loaded(Bridge.SendInitialContent(old(workspace.docs), sourceUri), workspace, window)
    {
      var document := workspace.OpenTextDocument(sourceUri);
      if document.Failure? {
        window.ShowErrorMessage(Bridge.LoadFailedPrefix + document.error);
        return;
      }
      panel.PostMessage(SetContent(document.value));
    }

    /** The message listener: `save` runs the save path with the message's
        content, `getContent` runs the load path, anything else is ignored. */
    method OnDidReceiveMessage(message: Bridge.Message, workspace: Workspace, window: Window, edit: Step, persist: Step)
      requires DidReceiveMessage in disposables
      modifies workspace, window, panel`events
      ensures match Bridge.Route(message)
        case SaveRequest(content) =>
          var r := Bridge.SaveContent(old(workspace.docs), sourceUri, content, edit, persist);
          workspace.docs == r.docs && window.notices == old(window.notices) + [r.notice] &&
          panel.events == old(panel.events)
        case ContentRequest =>
          Loaded(Bridge.SendInitialContent(old(workspace.docs), sourceUri), workspace, window)
        case Ignored =>
          unchanged(workspace, window) && panel.events == old(panel.events)
    {
      if message.command == Bridge.SaveCommand {
        SaveContent(message.content, workspace, window, edit, persist);
      } else if message.command == Bridge.GetContentCommand {
        SendInitialContent(workspace, window);
      }
    }

    /** `dispose()`: empties the slot, closes the webview panel and releases
        every registration still held, last registered first. */
    method Dispose(slot: PanelSlot)
      requires Valid()
      modifies slot, this`disposables, this`released, panel`disposed, panel`events
      ensures Valid()
      ensures slot.currentPanel == null && panel.disposed
      ensures disposables == [] && released == old(released) + Drained(old(disposables))
      ensures panel.events == old(panel.events) + if old(panel.disposed) then [] else [Disposed]
    {
      slot.currentPanel := null;
      panel.Dispose();
      ghost var closedEvents := panel.events;
      while |disposables| > 0
        invariant slot.currentPanel == null && panel.disposed && panel.events == closedEvents
        invariant released + Drained(disposables) == old(released) + Drained(old(disposables))
        decreases |disposables|
      {
        PopStep(released, disposables);
        var x := disposables[|disposables| - 1];
        disposables := disposables[..|disposables| - 1];
        released := released + [x];
      }
      assert released == old(released) + Drained(old(disposables));
      DrainedIsPermutation(old(disposables));
      assert multiset(released) == multiset(old(released)) + multiset(old(disposables));
    }
  }

  /** The class-level slot `MarkdownEditorPanel.currentPanel`. */
  class PanelSlot {
    var currentPanel: MarkdownEditorPanel?

    constructor ()
      ensures currentPanel == null
    {
      currentPanel := null;
    }

    /** Whether the slot holds a panel, and the document it is bound to. */
    function State(): Lifecycle
      reads this
    {
      if currentPanel == null then Closed else Open(currentPanel.sourceUri)
    }

    /** The webview panel `createOrShow` may reveal. */
    function Shown(): set<object>
      reads this
    {
      if currentPanel == null then {} else {currentPanel.panel}
    }

    /** What `createOrShow(sourceUri)` leaves behind: the panel that was in
        the slot, still bound to its own document and revealed once more; or,
        when the slot was empty, a new panel on `sourceUri` on a new webview
        panel, rendered once and holding its three registrations. */
    twostate predicate CreatedOrShown(sourceUri: Uri)
      reads this, Shown(), if currentPanel == null then {} else {currentPanel}
    {
      State() == AfterCreateOrShow(old(State()), sourceUri) &&
      (old(currentPanel) != null ==>
        currentPanel == old(currentPanel) &&
        currentPanel.panel.events == old(currentPanel.panel.events) + [Revealed] &&
        currentPanel.panel.title == old(currentPanel.panel.title) &&
        currentPanel.panel.visible &&
        currentPanel.panel.disposed == old(currentPanel.panel.disposed)) &&
      (old(currentPanel) == null ==>
        currentPanel != null && fresh(currentPanel) && fresh(currentPanel.panel) &&
        currentPanel.panel.viewType == ViewType &&
        currentPanel.panel.visible && !currentPanel.panel.disposed &&
        currentPanel.panel.title == Title(sourceUri) &&
        currentPanel.panel.events == [Rendered(Title(sourceUri))] &&
        currentPanel.disposables == Subscriptions() && currentPanel.released == [] &&
        currentPanel.Valid())
    }

    /** `createOrShow(sourceUri)`: reveals the panel in the slot, leaving it
        bound to its own document; or creates a webview panel and fills the
        slot with a new panel on `sourceUri`. */
    method CreateOrShow(sourceUri: Uri)
      modifies this, Shown()
      ensures CreatedOrShown(sourceUri)
    {
      if currentPanel != null {
        currentPanel.panel.Reveal();
        return;
      }
      var panel := new WebviewPanel(ViewType, InitialTitle);
      currentPanel := new MarkdownEditorPanel(panel, sourceUri);
    }

    /** `revive(panel, sourceUri)`: fills the slot with a new panel on the
        given webview panel, whatever it held before; the panel it held is
        not disposed. */
    method Revive(panel: WebviewPanel, sourceUri: Uri)
      modifies this, panel`title, panel`events
      ensures State() == Open(sourceUri)
      ensures currentPanel != null && fresh(currentPanel) && currentPanel.panel == panel
      ensures panel.title == Title(sourceUri)
      ensures panel.events == old(panel.events) + [Rendered(Title(sourceUri))]
      ensures currentPanel.disposables == Subscriptions() && currentPanel.released == [] && currentPanel.Valid()
      ensures old(currentPanel) != null ==> unchanged(old(currentPanel))
    {
      currentPanel := new MarkdownEditorPanel(panel, sourceUri);
    }
  }
}
