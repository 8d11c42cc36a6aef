/** The message protocol between the panel and its webview, and the two paths
    it drives: loading the bound document into the webview (`getContent`,
    answered by `setContent`) and saving the webview's text back (`save`).
    Each path is stated here as a function of the document store; the panel's
    methods are proved to follow these functions. */
module Bridge {
  import opened Wrappers
  import opened Host
  import Text

  const SaveCommand := "save"
  const GetContentCommand := "getContent"
  const SavedMessage := "Markdown file saved successfully!"
  const SaveFailedPrefix := "Failed to save: "
  const LoadFailedPrefix := "Failed to load content: "

  /** A message from the webview: its `command` tag and its `content` payload. */
  datatype Message = Message(command: string, content: string)

  /** What the panel does with a message. */
  datatype Action = SaveRequest(content: string) | ContentRequest | Ignored

  /** The switch on `message.command`: `save` carries the content to save,
      `getContent` asks for the document, and every other tag is dropped. */
  function Route(m: Message): (a: Action)
    ensures a.SaveRequest? <==> m.command == SaveCommand
    ensures a.SaveRequest? ==> a.content == m.content
    ensures a.ContentRequest? <==> m.command == GetContentCommand
    ensures a.Ignored? <==> m.command != SaveCommand && m.command != GetContentCommand
  {
    if m.command == SaveCommand then SaveRequest(m.content)
    else if m.command == GetContentCommand then ContentRequest
    else Ignored
  }

  /** The range the save path replaces: from the start of the document to line `lineCount`. */
  function WholeDocument(text: string): Text.Range
  {
    Text.Range(Text.Position(0, 0), Text.Position(Text.LineCount(text), 0))
  }

  /** What a save leaves behind: the documents and the one notification shown. */
  datatype SaveOutcome = SaveOutcome(docs: Docs, notice: Notice)

  /** The error text after the prefix when the host declines a step. */
  const EditDeclined := "the edit was not applied"
  const SaveDeclined := "the document was not saved"

  /** `_saveContent(content)` as the source writes it: the results of
      `applyEdit` and `save` are ignored, so only a rejection stops the path,
      and a step the host declines is followed by the success notice. */
  function SaveContentAsWritten(docs: Docs, uri: Uri, content: string, edit: Step, persist: Step): (r: SaveOutcome)
    ensures r.notice == Info(SavedMessage) <==>
      (uri in docs.buffers || uri in docs.disk) && !edit.Rejects? && !persist.Rejects?
    ensures r.notice.Error? ==> r.docs.disk == docs.disk
    ensures persist.Declines? ==> r.docs.disk == docs.disk
  {
    match Opened(docs, uri)
    case Failure(e) => SaveOutcome(docs, Error(SaveFailedPrefix + e))
    case Success(found) =>
      var (loaded, text) := found;
      if edit.Rejects? then SaveOutcome(loaded, Error(SaveFailedPrefix + edit.reason))
      else
        var edited := if edit.Resolves?
          then loaded.(buffers := loaded.buffers[uri := Text.Replace(text, WholeDocument(text), content)])
          else loaded;
        if persist.Rejects? then SaveOutcome(edited, Error(SaveFailedPrefix + persist.reason))
        else if persist.Declines? then SaveOutcome(edited, Info(SavedMessage))
        else SaveOutcome(edited.(disk := edited.disk[uri := edited.buffers[uri]]), Info(SavedMessage))
  }

  /** As written, a save of "# Hello" over notes.md holding "# Hi" reports
      success although storage still reads "# Hi", both when the host
      declines the edit and when it declines the save. */
  lemma SuccessNoticeWithoutStoring()
    ensures var notes := Uri("notes.md");
      var docs := Docs(map[], map[notes := "# Hi"]);
      var declinedEdit := SaveContentAsWritten(docs, notes, "# Hello", Declines, Resolves);
      var declinedSave := SaveContentAsWritten(docs, notes, "# Hello", Resolves, Declines);
      declinedEdit.notice == Info(SavedMessage) && declinedEdit.docs.disk[notes] == "# Hi" &&
      declinedSave.notice == Info(SavedMessage) && declinedSave.docs.disk[notes] == "# Hi"
  {
  }

  /** The reason shown when the host declines or rejects a step. */
  function Reason(step: Step, declined: string): string
  {
    if step.Rejects? then step.reason else declined
  }

  /** `_saveContent(content)` for the document `uri`, with the results of
      `applyEdit` and `save` checked: open it, replace its whole text,
      persist it, then report success; the first step that fails or is
      declined ends the path with a single error notification. `edit` and
      `persist` are the host's answers to `applyEdit` and `save`. */
  function SaveContent(docs: Docs, uri: Uri, content: string, edit: Step, persist: Step): (r: SaveOutcome)
    ensures r.notice == Info(SavedMessage) <==>
      (uri in docs.buffers || uri in docs.disk) && edit.Resolves? && persist.Resolves?
    ensures r.notice.Info? ==>
      r.docs == Docs(docs.buffers[uri := content], docs.disk[uri := content])
    ensures r.notice.Error? ==>
      r.docs.disk == docs.disk &&
      |SaveFailedPrefix| <= |r.notice.text| && r.notice.text[..|SaveFailedPrefix|] == SaveFailedPrefix
    ensures r.notice.Error? && (!edit.Resolves? || (uri !in docs.buffers && uri !in docs.disk)) ==>
      r.docs.buffers.Keys <= docs.buffers.Keys + {uri} &&
      forall u :: u in docs.buffers ==> u in r.docs.buffers && r.docs.buffers[u] == docs.buffers[u]
  {
    match Opened(docs, uri)
    case Failure(e) => SaveOutcome(docs, Error(SaveFailedPrefix + e))
    case Success(found) =>
      var (loaded, text) := found;
      if !edit.Resolves? then SaveOutcome(loaded, Error(SaveFailedPrefix + Reason(edit, EditDeclined)))
      else
        Text.FullRangeReplacesAll(text, content);
        var edited := loaded.(buffers := loaded.buffers[uri := Text.Replace(text, WholeDocument(text), content)]);
        if !persist.Resolves? then SaveOutcome(edited, Error(SaveFailedPrefix + Reason(persist, SaveDeclined)))
        else SaveOutcome(edited.(disk := edited.disk[uri := content]), Info(SavedMessage))
  }

  /** Where the host declines nothing, the checked save and the save as
      written agree. */
  lemma CheckedSaveAgreesWhenNothingDeclines(docs: Docs, uri: Uri, content: string, edit: Step, persist: Step)
    requires !edit.Declines? && !persist.Declines?
    ensures SaveContent(docs, uri, content, edit, persist) == SaveContentAsWritten(docs, uri, content, edit, persist)
  {
    if (uri in docs.buffers || uri in docs.disk) && edit.Resolves? && persist.Resolves? {
      var text := Opened(docs, uri).value.1;
      Text.FullRangeReplacesAll(text, content);
    }
  }

  /** What a load produces: the text posted to the webview, or the message of
      the one error notification shown instead. */
  datatype LoadOutcome = Delivered(docs: Docs, content: string) | LoadFailed(message: string)

  /** `_sendInitialContent()` for the document `uri`: the full current text,
      unsaved edits included, or an error when the document cannot be opened. */
  function SendInitialContent(docs: Docs, uri: Uri): (r: LoadOutcome)
    ensures r.Delivered? <==> uri in docs.buffers || uri in docs.disk
    ensures r.Delivered? ==> r.docs.disk == docs.disk
    ensures r.Delivered? ==> uri in r.docs.buffers && r.content == r.docs.buffers[uri]
    ensures r.Delivered? ==> r.content == if uri in docs.buffers then docs.buffers[uri] else docs.disk[uri]
    ensures r.LoadFailed? ==>
      |LoadFailedPrefix| <= |r.message| && r.message[..|LoadFailedPrefix|] == LoadFailedPrefix
  {
    match Opened(docs, uri)
    case Failure(e) => LoadFailed(LoadFailedPrefix + e)
    case Success(found) => Delivered(found.0, found.1)
  }

  /** Loading the document and saving the delivered text unchanged leaves
      storage holding exactly that text, and leaves the open documents as
      the load left them. */
  lemma LoadThenSaveUnchanged(docs: Docs, uri: Uri)
    requires uri in docs.buffers || uri in docs.disk
    ensures var l := SendInitialContent(docs, uri);
      l.Delivered? &&
      var s := SaveContent(l.docs, uri, l.content, Resolves, Resolves);
      s.notice == Info(SavedMessage) && s.docs.buffers == l.docs.buffers &&
      uri in s.docs.disk && s.docs.disk[uri] == l.content
  {
    var l := SendInitialContent(docs, uri);
    assert l.docs.buffers[uri := l.content] == l.docs.buffers;
  }

  /** A load fails only for a document the host cannot open; a save of that
      document then fails as well and changes no document. */
  lemma LoadFailureChangesNothing(docs: Docs, uri: Uri, content: string, edit: Step, persist: Step)
    requires SendInitialContent(docs, uri).LoadFailed?
    ensures uri !in docs.buffers && uri !in docs.disk
    ensures var s := SaveContent(docs, uri, content, edit, persist);
      s.notice.Error? && s.docs == docs
  {
  }

  /** A save that persists makes the next load deliver exactly the saved text. */
  lemma SaveThenLoad(docs: Docs, uri: Uri, content: string)
    requires uri in docs.buffers || uri in docs.disk
    ensures var s := SaveContent(docs, uri, content, Resolves, Resolves);
      SendInitialContent(s.docs, uri) == Delivered(s.docs, content)
  {
  }

  /** The scenario of a user editing notes.md: the webview receives "# Hi",
      the user saves "# Hello", and storage then reads "# Hello". */
  lemma EditNotesScenario()
    ensures var notes := Uri("notes.md");
      var docs := Docs(map[], map[notes := "# Hi"]);
      var l := SendInitialContent(docs, notes);
      l == Delivered(Docs(map[notes := "# Hi"], docs.disk), "# Hi") &&
      SaveContent(l.docs, notes, "# Hello", Resolves, Resolves) ==
        SaveOutcome(Docs(map[notes := "# Hello"], map[notes := "# Hello"]), Info(SavedMessage))
  {
  }
}
