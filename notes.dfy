/**
 * The notes panel: at most ten notes added blank or from a template,
 * content edits capped at 500 characters that bump a version counter,
 * renaming with a default title, categories, deletion and the plain-text
 * export. Ids and timestamps (random and clock values) are inputs.
 */
module Notes {
  import opened Wrappers
  import opened Text

  datatype Note = Note(
    id: string,
    title: string,
    content: string,
    category: string,
    createdAt: string,
    updatedAt: string,
    version: int)

  datatype NoteTemplate = NoteTemplate(id: string, title: string, content: string, category: string)

  const DefaultTitle := "Untitled Note"
  const DefaultCategory := "General"
  const MaxNotes := 10
  const MaxContent := 500

  /** `defaultNote()` with the id and the time it would draw. */
  function DefaultNote(id: string, now: string): (n: Note)
    ensures n.id == id && n.title == DefaultTitle && n.content == "" && n.category == DefaultCategory
    ensures n.createdAt == now && n.updatedAt == now && n.version == 1
  {
    Note(id, DefaultTitle, "", DefaultCategory, now, now, 1)
  }

  /** A blank note, or one whose title, content and category come from the template. */
  function NewNote(template: Option<NoteTemplate>, id: string, now: string): (n: Note)
    ensures n.id == id && n.createdAt == now && n.updatedAt == now && n.version == 1
    ensures template.None? ==> n == DefaultNote(id, now)
    ensures template.Some? ==>
      n.title == template.value.title && n.content == template.value.content && n.category == template.value.category
  {
    match template
    case None => DefaultNote(id, now)
    case Some(t) => DefaultNote(id, now).(title := t.title, content := t.content, category := t.category)
  }

  /** `addNote`: nothing at ten notes or more, otherwise the new note goes last. */
  function Added(notes: seq<Note>, template: Option<NoteTemplate>, id: string, now: string): (r: seq<Note>)
    ensures |notes| >= MaxNotes ==> r == notes
    ensures |notes| < MaxNotes ==> r == notes + [NewNote(template, id, now)]
  {
    if |notes| >= MaxNotes then notes else notes + [NewNote(template, id, now)]
  }

  /** Adding never takes the list past ten notes, nor grows it by more than one. */
  lemma AddNoteBounded(notes: seq<Note>, template: Option<NoteTemplate>, id: string, now: string)
    ensures |notes| <= MaxNotes ==> |Added(notes, template, id, now)| <= MaxNotes
    ensures |notes| <= |Added(notes, template, id, now)| <= |notes| + 1
    ensures Added(notes, template, id, now)[..|notes|] == notes
  {
  }

  /** `handleContentChange`: the notes with that id get the new content, the time and one more version. */
  function ChangeContent(notes: seq<Note>, id: string, value: string, now: string): (r: seq<Note>)
    ensures |r| == |notes|
    ensures forall i :: 0 <= i < |r| && notes[i].id != id ==> r[i] == notes[i]
    ensures forall i :: 0 <= i < |r| && notes[i].id == id ==>
      r[i] == notes[i].(content := value, updatedAt := now, version := notes[i].version + 1)
  {
    seq(|notes|, i requires 0 <= i < |notes| =>
      if notes[i].id == id then notes[i].(content := value, updatedAt := now, version := notes[i].version + 1)
      else notes[i])
  }

  /** The text area's guard: an edit longer than 500 characters is refused. */
  function Edited(notes: seq<Note>, id: string, value: string, now: string): (r: seq<Note>)
    ensures |value| > MaxContent ==> r == notes
    ensures |value| <= MaxContent ==> r == ChangeContent(notes, id, value, now)
  {
    if |value| > MaxContent then notes else ChangeContent(notes, id, value, now)
  }

  /** What holds of every note the panel creates or edits. */
  ghost predicate WithinLimits(notes: seq<Note>)
  {
    forall n :: n in notes ==> |n.content| <= MaxContent && n.version >= 1
  }

  /**
   * Edits keep every note within 500 characters, ids and titles stay, and
   * an edited note's version only grows.
   */
  lemma EditContentKeepsLimits(notes: seq<Note>, id: string, value: string, now: string)
    requires WithinLimits(notes)
    ensures WithinLimits(Edited(notes, id, value, now))
    ensures forall i :: 0 <= i < |notes| ==>
      Edited(notes, id, value, now)[i].id == notes[i].id
      && Edited(notes, id, value, now)[i].title == notes[i].title
      && Edited(notes, id, value, now)[i].version >= notes[i].version
  {
  }

  /** A new note from a template that fits meets the limits too. */
  lemma AddNoteKeepsLimits(notes: seq<Note>, template: Option<NoteTemplate>, id: string, now: string)
    requires WithinLimits(notes)
    requires template.Some? ==> |template.value.content| <= MaxContent
    ensures WithinLimits(Added(notes, template, id, now))
  {
    var r := Added(notes, template, id, now);
    forall i | 0 <= i < |r| ensures |r[i].content| <= MaxContent && r[i].version >= 1 {
      if i < |notes| { assert r[i] == notes[i]; }
    }
  }

  /** `renameValue.trim() || 'Untitled Note'`. */
  function RenamedTitle(renameValue: string): (title: string)
    ensures title != ""
    ensures IsBlank(renameValue) ==> title == DefaultTitle
    ensures !IsBlank(renameValue) ==> title == Trim(renameValue)
  {
    TrimEmptyIffBlank(renameValue);
    if Trim(renameValue) != "" then Trim(renameValue) else DefaultTitle
  }

  /** `finishRename`'s new list: the notes with that id get the title and the time. */
  function Rename(notes: seq<Note>, id: string, renameValue: string, now: string): (r: seq<Note>)
    ensures |r| == |notes|
    ensures forall i :: 0 <= i < |r| && notes[i].id != id ==> r[i] == notes[i]
    ensures forall i :: 0 <= i < |r| && notes[i].id == id ==>
      r[i] == notes[i].(title := RenamedTitle(renameValue), updatedAt := now)
  {
    seq(|notes|, i requires 0 <= i < |notes| =>
      if notes[i].id == id then notes[i].(title := RenamedTitle(renameValue), updatedAt := now) else notes[i])
  }

  /** `updateCategory`'s new list: only category and time of the notes with that id change. */
  function SetCategory(notes: seq<Note>, id: string, category: string, now: string): (r: seq<Note>)
    ensures |r| == |notes|
    ensures forall i :: 0 <= i < |r| && notes[i].id != id ==> r[i] == notes[i]
    ensures forall i :: 0 <= i < |r| && notes[i].id == id ==>
      r[i] == notes[i].(category := category, updatedAt := now)
  {
    seq(|notes|, i requires 0 <= i < |notes| =>
      if notes[i].id == id then notes[i].(category := category, updatedAt := now) else notes[i])
  }

  /** `deleteNote`'s new list: `notes.filter(n => n.id !== id)`. */
  function Delete(notes: seq<Note>, id: string): (r: seq<Note>)
    ensures forall n :: n in r <==> n in notes && n.id != id
    ensures |r| <= |notes|
  {
    if |notes| == 0 then []
    else
      assert notes == [notes[0]] + notes[1..];
      (if notes[0].id == id then [] else [notes[0]]) + Delete(notes[1..], id)
  }

  /** `s` is `t` with some elements left out, the rest in their order. */
  predicate SubsequenceOf<T(==)>(s: seq<T>, t: seq<T>)
    decreases |t|
  {
    if |s| == 0 then true
    else if |t| == 0 then false
    else if s[0] == t[0] then SubsequenceOf(s[1..], t[1..])
    else SubsequenceOf(s, t[1..])
  }

  /** The remaining notes keep their order, and nothing is removed when no note has that id. */
  lemma {:induction false} DeleteKeepsOrder(notes: seq<Note>, id: string)
    ensures SubsequenceOf(Delete(notes, id), notes)
    ensures (forall n :: n in notes ==> n.id != id) ==> Delete(notes, id) == notes
  {
    if |notes| > 0 {
      DeleteKeepsOrder(notes[1..], id);
      var rest := Delete(notes[1..], id);
      if notes[0].id != id {
        assert Delete(notes, id) == [notes[0]] + rest;
        assert ([notes[0]] + rest)[1..] == rest;
      } else {
        assert Delete(notes, id) == [] + rest == rest;
        if |rest| > 0 {
          assert rest[0] in rest;
          assert rest[0] != notes[0];
        }
        assert SubsequenceOf(rest, notes);
      }
      if forall n :: n in notes ==> n.id != id {
        assert forall n :: n in notes[1..] ==> n in notes;
        assert [notes[0]] + notes[1..] == notes;
      }
    }
  }

  /** Renaming, a new category and deletion keep every note within the limits. */
  lemma OtherEditsKeepLimits(notes: seq<Note>, id: string, renameValue: string, category: string, now: string)
    requires WithinLimits(notes)
    ensures WithinLimits(Rename(notes, id, renameValue, now))
    ensures WithinLimits(SetCategory(notes, id, category, now))
    ensures WithinLimits(Delete(notes, id))
  {
    var r := Rename(notes, id, renameValue, now);
    forall n | n in r ensures |n.content| <= MaxContent && n.version >= 1 {
      var i :| 0 <= i < |r| && r[i] == n;
      assert notes[i] in notes;
    }
    var c := SetCategory(notes, id, category, now);
    forall n | n in c ensures |n.content| <= MaxContent && n.version >= 1 {
      var i :| 0 <= i < |c| && c[i] == n;
      assert notes[i] in notes;
    }
  }

  /** The export file's text: title and category lines, an empty line, then the content. */
  function ExportText(n: Note): string
  {
    "Title: " + n.title + "\nCategory: " + n.category + "\n\n" + n.content
  }

  /** The index of the first `c` in `s`, or `|s|`. */
  function LineEnd(s: string, c: char): (k: nat)
    ensures k <= |s| && c !in s[..k]
    ensures k < |s| ==> s[k] == c
  {
    if |s| == 0 || s[0] == c then 0
    else
      var k := LineEnd(s[1..], c);
      assert s[..k + 1] == [s[0]] + s[1..][..k];
      k + 1
  }

  lemma {:induction false} LineEndOfLine(a: string, b: string)
    requires '\n' !in a
    ensures LineEnd(a + "\n" + b, '\n') == |a|
    decreases |a|
  {
    if |a| > 0 {
      assert a[0] in a;
      LineEndOfLine(a[1..], b);
      assert (a + "\n" + b)[1..] == a[1..] + "\n" + b;
    }
  }

  /** A line that starts with `prefix`: the rest of that line, and what follows its line break. */
  function ParseLine(prefix: string, s: string): Option<(string, string)>
  {
    if |s| < |prefix| || s[..|prefix|] != prefix then None
    else
      var rest := s[|prefix|..];
      var k := LineEnd(rest, '\n');
      if k == |rest| then None else Some((rest[..k], rest[k + 1..]))
  }

  lemma ParseLineOf(prefix: string, a: string, b: string)
    requires '\n' !in a
    ensures ParseLine(prefix, prefix + a + "\n" + b) == Some((a, b))
  {
    var s := prefix + a + "\n" + b;
    assert s[..|prefix|] == prefix;
    assert s[|prefix|..] == a + "\n" + b;
    LineEndOfLine(a, b);
    assert (a + "\n" + b)[..|a|] == a;
    assert (a + "\n" + b)[|a| + 1..] == b;
  }

  /** Reads title, category and content back from an exported text. */
  function ParseExport(text: string): Option<(string, string, string)>
  {
    match ParseLine("Title: ", text)
    case None => None
    case Some((title, rest)) =>
      match ParseLine("Category: ", rest)
      case None => None
      case Some((category, tail)) =>
        if |tail| > 0 && tail[0] == '\n' then Some((title, category, tail[1..])) else None
  }

  /** A note whose title and category are single lines can be read back from its export. */
  lemma ExportRoundTrip(n: Note)
    requires '\n' !in n.title && '\n' !in n.category
    ensures ParseExport(ExportText(n)) == Some((n.title, n.category, n.content))
  {
    var tail := "\n" + n.content;
    var rest := "Category: " + n.category + "\n" + tail;
    assert ExportText(n) == "Title: " + n.title + "\n" + rest;
    ParseLineOf("Title: ", n.title, rest);
    ParseLineOf("Category: ", n.category, tail);
    assert tail[1..] == n.content;
  }

  /** The notes panel of the calendar page. */
  class NotesPanel {
    var notes: seq<Note>
    var renamingId: Option<string>
    var renameValue: string
    var showDeleteId: Option<string>

    /**
     * Every note is within 500 characters and has a positive version. Edits,
     * renames, new categories and deletions keep this; a new note keeps it
     * when its template's content fits.
     */
    ghost predicate Valid()
      reads this`notes
    {
      WithinLimits(notes)
    }

    /** The panel once the stored notes are loaded. */
    constructor (stored: seq<Note>)
      ensures notes == stored && renamingId == None && renameValue == "" && showDeleteId == None
    {
      notes := stored;
      renamingId := None;
      renameValue := "";
      showDeleteId := None;
    }

    /** `addNote`; `hideTemplates` says whether the template list is closed, as it is after a note from a template. */
    method AddNote(template: Option<NoteTemplate>, id: string, now: string) returns (hideTemplates: bool)
      modifies this`notes
      ensures notes == Added(old(notes), template, id, now)
      ensures hideTemplates <==> template.Some? && |old(notes)| < MaxNotes
      ensures old(Valid()) && (template.Some? ==> |template.value.content| <= MaxContent) ==> Valid()
    {
      if Valid() && (template.Some? ==> |template.value.content| <= MaxContent) {
        AddNoteKeepsLimits(notes, template, id, now);
      }
      hideTemplates := false;
      if |notes| >= MaxNotes {
        return;
      }
      notes := notes + [NewNote(template, id, now)];
      hideTemplates := template.Some?;
    }

    /** Typing in a note's text area. */
    method EditContent(id: string, value: string, now: string)
      modifies this`notes
      ensures notes == Edited(old(notes), id, value, now)
      ensures old(Valid()) ==> Valid()
    {
      if Valid() {
        EditContentKeepsLimits(notes, id, value, now);
      }
      if |value| > MaxContent {
        return;
      }
      notes := ChangeContent(notes, id, value, now);
    }

    method StartRename(id: string, current: string)
      modifies this`renamingId, this`renameValue
      ensures renamingId == Some(id) && renameValue == current
    {
      renamingId := Some(id);
      renameValue := current;
    }

    method RenameChange(value: string)
      modifies this`renameValue
      ensures renameValue == value
    {
      renameValue := value;
    }

    /** `finishRename`: the trimmed title or the default, then the rename state is cleared. */
    method FinishRename(id: string, now: string)
      modifies this`notes, this`renamingId, this`renameValue
      ensures notes == Rename(old(notes), id, old(renameValue), now)
      ensures renamingId == None && renameValue == ""
      ensures old(Valid()) ==> Valid()
    {
      if Valid() {
        OtherEditsKeepLimits(notes, id, renameValue, "", now);
      }
      notes := Rename(notes, id, renameValue, now);
      renamingId := None;
      renameValue := "";
    }

    method UpdateCategory(id: string, category: string, now: string)
      modifies this`notes
      ensures notes == SetCategory(old(notes), id, category, now)
      ensures old(Valid()) ==> Valid()
    {
      if Valid() {
        OtherEditsKeepLimits(notes, id, "", category, now);
      }
      notes := SetCategory(notes, id, category, now);
    }

    method ConfirmDelete(id: string)
      modifies this`showDeleteId
      ensures showDeleteId == Some(id)
    {
      showDeleteId := Some(id);
    }

    /** `deleteNote`: the note goes and the confirmation closes. */
    method DeleteNote(id: string)
      modifies this`notes, this`showDeleteId
      ensures notes == Delete(old(notes), id)
      ensures showDeleteId == None
      ensures old(Valid()) ==> Valid()
    {
      if Valid() {
        OtherEditsKeepLimits(notes, id, "", "", "");
      }
      notes := Delete(notes, id);
      showDeleteId := None;
    }
  }
}
