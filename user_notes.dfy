/**
 * The older notes page: the same note operations as the calendar's notes
 * panel, but no category editing and a template list that stays open.
 */
module UserNotes {
  import opened Wrappers
  import opened Notes

  class UserNotesPanel {
    var notes: seq<Note>
    var renamingId: Option<string>
    var renameValue: string
    var showDeleteId: Option<string>

    /**
     * Every note is within 500 characters and has a positive version. Edits,
     * renames and deletions keep this; a new note keeps it when its
     * template's content fits.
     */
    ghost predicate Valid()
      reads this`notes
    {
      WithinLimits(notes)
    }

    /** The page once the stored notes (empty when there are none) are loaded. */
    constructor (stored: seq<Note>)
      ensures notes == stored && renamingId == None && renameValue == "" && showDeleteId == None
    {
      notes := stored;
      renamingId := None;
      renameValue := "";
      showDeleteId := None;
    }

    /** `addNote`: a blank or template note is appended unless ten notes exist. */
    method AddNote(template: Option<NoteTemplate>, id: string, now: string)
      modifies this`notes
      ensures old(Valid()) && (template.Some? ==> |template.value.content| <= MaxContent) ==> Valid()
      ensures notes == Added(old(notes), template, id, now)
    {
      if Valid() && (template.Some? ==> |template.value.content| <= MaxContent) {
        AddNoteKeepsLimits(notes, template, id, now);
      }
      if |notes| >= MaxNotes {
        return;
      }
      notes := notes + [NewNote(template, id, now)];
    }

    /** The text area's change handler: over 500 characters nothing changes, otherwise `handleContentChange`. */
    method EditContent(id: string, value: string, now: string)
      modifies this`notes
      ensures old(Valid()) ==> Valid()
      ensures notes == Edited(old(notes), id, value, now)
    {
      if Valid() {
        EditContentKeepsLimits(notes, id, value, now);
      }
      if |value| > MaxContent {
        return;
      }
      notes := ChangeContent(notes, id, value, now);
    }

    method StartRename(id: string, current: string)
      modifies this`renamingId, this`renameValue
      ensures renamingId == Some(id) && renameValue == current
    {
      renamingId := Some(id);
      renameValue := current;
    }

    method RenameChange(value: string)
      modifies this`renameValue
      ensures renameValue == value
    {
      renameValue := value;
    }

    /** `finishRename`: the trimmed title or the default, then the rename state is cleared. */
    method FinishRename(id: string, now: string)
      modifies this`notes, this`renamingId, this`renameValue
      ensures old(Valid()) ==> Valid()
      ensures notes == Rename(old(notes), id, old(renameValue), now)
      ensures renamingId == None && renameValue == ""
    {
      if Valid() {
        OtherEditsKeepLimits(notes, id, renameValue, "", now);
      }
      notes := Rename(notes, id, renameValue, now);
      renamingId := None;
      renameValue := "";
    }

    method ConfirmDelete(id: string)
      modifies this`showDeleteId
      ensures showDeleteId == Some(id)
    {
      showDeleteId := Some(id);
    }

    /** `deleteNote`: the note goes, the others keep their order, and the confirmation closes. */
    method DeleteNote(id: string)
      modifies this`notes, this`showDeleteId
      ensures old(Valid()) ==> Valid()
      ensures notes == Delete(old(notes), id)
      ensures showDeleteId == None
    {
      if Valid() {
        OtherEditsKeepLimits(notes, id, renameValue, "", "");
      }
      notes := Delete(notes, id);
      showDeleteId := None;
    }
  }
}
