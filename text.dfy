/** The string and document-text operations the extension relies on:
    `String.prototype.endsWith`, a stand-in for Node's `path.basename`, and the
    positions and full-range replacement of a text document. */
module Text {

  /** `s.endsWith(suffix)`: case-sensitive, character by character. */
  predicate EndsWith(s: string, suffix: string)
  {
    |suffix| <= |s| && s[|s| - |suffix|..] == suffix
  }

  /** A string ends with `suffix` exactly when it is some stem followed by `suffix`. */
  lemma EndsWithIffStem(s: string, suffix: string)
    ensures EndsWith(s, suffix) <==> exists stem :: s == stem + suffix
  {
    if EndsWith(s, suffix) {
      var stem := s[..|s| - |suffix|];
      assert s == stem + suffix;
    }
    if stem :| s == stem + suffix {
      assert s[|s| - |suffix|..] == suffix;
    }
  }

  /** Stand-in for `path.basename` on a POSIX path: the part after the last `/`. */
  function Basename(path: string): string
  {
    if path == [] || path[|path| - 1] == '/' then []
    else Basename(path[..|path| - 1]) + [path[|path| - 1]]
  }

  /** The base name is the longest end of the path without a `/`: the path
      ends with it, and the character before it, if any, is a `/`. */
  lemma {:induction false} BasenameIsLastSegment(path: string)
    ensures var b := Basename(path);
      '/' !in b && EndsWith(path, b) && (|b| < |path| ==> path[|path| - |b| - 1] == '/')
  {
    if path != [] && path[|path| - 1] != '/' {
      var init, last := path[..|path| - 1], path[|path| - 1];
      BasenameIsLastSegment(init);
      var b := Basename(init);
      assert Basename(path) == b + [last];
      assert path == init + [last];
      assert path[|path| - |b| - 1..] == init[|init| - |b|..] + [last];
      if |b| < |init| {
        assert path[|path| - |b| - 2] == init[|init| - |b| - 1];
      }
    }
  }

  /** `TextDocument.lineCount`: one line more than there are line breaks. */
  function LineCount(text: string): (n: nat)
    ensures n >= 1
  {
    if text == [] then 1
    else LineCount(text[1..]) + (if text[0] == '\n' then 1 else 0)
  }

  /** A `vscode.Position`: zero-based line and character. */
  datatype Position = Position(line: nat, character: nat)

  /** A `vscode.Range` between two positions. */
  datatype Range = Range(start: Position, end: Position)

  /** The offset of a position in `text`, after the host validates it: a
      character past the end of its line stands for the line's end, and a
      line past the last line stands for the end of the document. */
  function OffsetAt(text: string, p: Position): (k: nat)
    ensures k <= |text|
    decreases |text|
  {
    if text == [] then 0
    else if p.line == 0 then
      if p.character == 0 || text[0] == '\n' then 0
      else 1 + OffsetAt(text[1..], Position(0, p.character - 1))
    else if text[0] == '\n' then 1 + OffsetAt(text[1..], Position(p.line - 1, p.character))
    else 1 + OffsetAt(text[1..], p)
  }

  /** The text after a `WorkspaceEdit.replace` of range `r` by `content`. */
  function Replace(text: string, r: Range, content: string): string
  {
    var a := OffsetAt(text, r.start);
    var b := OffsetAt(text, r.end);
    var lo := if a <= b then a else b;
    var hi := if a <= b then b else a;
    text[..lo] + content + text[hi..]
  }

  /** A position on or past line `LineCount(text)` is the end of the document. */
  lemma {:induction false} PastLastLineIsEnd(text: string, p: Position)
    requires p.line >= LineCount(text)
    ensures OffsetAt(text, p) == |text|
    decreases |text|
  {
    if text != [] {
      if text[0] == '\n' {
        PastLastLineIsEnd(text[1..], Position(p.line - 1, p.character));
      } else {
        PastLastLineIsEnd(text[1..], p);
      }
    }
  }

  /** The range from (0, 0) to (lineCount, 0) covers the whole document, so
      replacing it leaves exactly the new content. */
  lemma {:induction false} FullRangeReplacesAll(text: string, content: string)
    ensures Replace(text, Range(Position(0, 0), Position(LineCount(text), 0)), content) == content
  {
    PastLastLineIsEnd(text, Position(LineCount(text), 0));
    assert OffsetAt(text, Position(0, 0)) == 0;
    assert text[|text|..] == [];
  }
}
