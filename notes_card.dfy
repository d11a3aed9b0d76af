/** The content preview of `components/notes/NotesCard.jsx`: the first non-blank lines of a
    note, with an ellipsis when more follow. */
module NotesCard {
  import opened Util
  import opened Text

  /** `.filter(line => line.trim())`: the lines whose trimmed form is not empty, kept whole
      and in order. */
  function KeptLines(lines: seq<string>): (kept: seq<string>)
    ensures |kept| <= |lines|
    ensures forall l :: l in kept <==> l in lines && !IsBlank(l)
  {
    if lines == [] then []
    else (if Trim(lines[0]) != "" then [lines[0]] else []) + KeptLines(lines[1..])
  }

  /** Filtering works line by line: the kept lines of two blocks are the kept lines of the
      first followed by those of the second. */
  lemma {:induction false} KeptLinesConcat(a: seq<string>, b: seq<string>)
    ensures KeptLines(a + b) == KeptLines(a) + KeptLines(b)
  {
    if a == [] {
      assert a + b == b;
    } else {
      assert (a + b)[0] == a[0];
      assert (a + b)[1..] == a[1..] + b;
      KeptLinesConcat(a[1..], b);
      var head := if Trim(a[0]) != "" then [a[0]] else [];
      assert KeptLines(a + b) == head + (KeptLines(a[1..]) + KeptLines(b));
    }
  }

  /** The kept lines of a note's content, split at `'\n'`. */
  function NoteLines(content: string): seq<string> {
    KeptLines(Split(content, '\n'))
  }

  lemma NoteLinesHaveNoBreak(content: string)
    ensures forall i | 0 <= i < |NoteLines(content)| :: '\n' !in NoteLines(content)[i] && !IsBlank(NoteLines(content)[i])
  {
    var lines := NoteLines(content);
    forall i | 0 <= i < |lines| ensures '\n' !in lines[i] && !IsBlank(lines[i]) {
      assert lines[i] in lines;
    }
  }

  /** `getContentPreview()`. */
  function ContentPreview(content: Option<string>): string {
    if content.None? || content.value == "" then ""
    else
      var lines := NoteLines(content.value);
      var preview := Join(Take(lines, 3), '\n');
      if |lines| > 3 then preview + "..." else preview
  }

  /** A missing note body, an empty one, or one of blank lines only, previews as nothing. */
  lemma EmptyPreview(content: Option<string>)
    requires content.None? || content.value == "" || NoteLines(content.value) == []
    ensures ContentPreview(content) == ""
  {
  }

  /** With at most three non-blank lines the preview holds exactly those lines, one per
      `'\n'`-separated piece, and nothing else. */
  lemma ShortPreview(content: string)
    requires 1 <= |NoteLines(content)| <= 3
    ensures Split(ContentPreview(Some(content)), '\n') == NoteLines(content)
  {
    var lines := NoteLines(content);
    NoteLinesHaveNoBreak(content);
    assert Take(lines, 3) == lines;
    SplitJoin(lines, '\n');
  }

  /** With more than three non-blank lines the preview ends with `'...'`, and before it holds
      exactly the first three of them. */
  lemma LongPreview(content: string)
    requires |NoteLines(content)| > 3
    ensures var p := ContentPreview(Some(content));
      |p| >= 3 && p[|p| - 3..] == "..." && Split(p[..|p| - 3], '\n') == NoteLines(content)[..3]
  {
    var lines := NoteLines(content);
    NoteLinesHaveNoBreak(content);
    var top := Take(lines, 3);
    assert top == lines[..3];
    var body := Join(top, '\n');
    var p := body + "...";
    assert p[..|p| - 3] == body;
    assert p[|p| - 3..] == "...";
    SplitJoin(top, '\n');
  }
}
