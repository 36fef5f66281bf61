/** The `AddNote` editor of src/components/AddNote.tsx. Its draft lives in
    the component's own state, not in the reducer; saving writes a new
    note to the store, closes the editor through `SET_ADDING_NOTE` and asks
    the parent to refresh through the `refreshNotes` callback, which the
    model counts. */
module AddNote {
  import opened NoteContext
  import opened App
  import opened Editor

  class AddNoteForm {
    /** The textarea's text. */
    var draft: string
    /** How often `refreshNotes` has been called. */
    var refreshes: nat
    const app: NotesApp

    ghost predicate Valid()
      reads this, app, app.store
    {
      app.Valid()
    }

    constructor (app: NotesApp)
      requires app.Valid()
      ensures Valid()
      ensures this.app == app && draft == "" && refreshes == 0
    {
      this.app := app;
      draft := "";
      refreshes := 0;
    }

    /** The textarea's `onChange`. */
    method ChangeDraft(text: string)
      modifies this
      ensures draft == text && refreshes == old(refreshes)
    {
      draft := text;
    }

    /** `saveNote`: a blank draft does nothing; otherwise one new note
        holding the untrimmed draft is written under `uuid`, and only if the
        write succeeds is the editor closed, the draft cleared and the
        parent refreshed. */
    method Save(now: int, uuid: string, fault: bool)
      requires Valid()
      modifies this, app, app.store
      ensures Valid()
      ensures app.store.lastSync == old(app.store.lastSync)
      ensures IsBlank(old(draft)) || fault ==>
        && draft == old(draft) && refreshes == old(refreshes)
        && app.state == old(app.state) && app.store.notes == old(app.store.notes)
      ensures !IsBlank(old(draft)) && !fault ==>
        && app.store.notes == old(app.store.notes)[uuid := NewNote(now, uuid, old(draft))]
        && app.state == old(app.state).(addingNote := false)
        && draft == "" && refreshes == old(refreshes) + 1
      ensures !IsBlank(old(draft)) && !fault && uuid !in old(app.store.notes) ==>
        |app.store.notes| == |old(app.store.notes)| + 1
    {
      if !IsBlank(draft) {
        var note := NewNote(now, uuid, draft);
        var saved := app.store.SaveNote(note, fault);
        if saved {
          app.Dispatch(SetAddingNote(false));
          draft := "";
          refreshes := refreshes + 1;
        }
      }
    }

    /** `cancelAddNote`: the editor closes and the draft is kept. */
    method Cancel()
      modifies app
      ensures app.state == old(app.state).(addingNote := false)
      ensures draft == old(draft) && refreshes == old(refreshes)
    {
      app.Dispatch(SetAddingNote(false));
    }

    /** The textarea's `onKeyDown`: the shortcut decision picks at most one
        of cancel and save; the result says whether `preventDefault` ran. */
    method KeyDown(key: string, ctrlKey: bool, metaKey: bool, now: int, uuid: string, fault: bool)
      returns (preventDefault: bool)
      requires Valid()
      modifies this, app, app.store
      ensures Valid()
      ensures preventDefault <==> key == "s" && (ctrlKey || metaKey)
      ensures app.store.lastSync == old(app.store.lastSync)
      ensures key == "Escape" ==>
        && app.state == old(app.state).(addingNote := false)
        && draft == old(draft) && refreshes == old(refreshes)
        && app.store.notes == old(app.store.notes)
      ensures key != "Escape" && !(key == "s" && (ctrlKey || metaKey)) ==>
        && app.state == old(app.state) && draft == old(draft)
        && refreshes == old(refreshes) && app.store.notes == old(app.store.notes)
      ensures key == "s" && (ctrlKey || metaKey) && (IsBlank(old(draft)) || fault) ==>
        && app.state == old(app.state) && draft == old(draft)
        && refreshes == old(refreshes) && app.store.notes == old(app.store.notes)
      ensures key == "s" && (ctrlKey || metaKey) && !IsBlank(old(draft)) && !fault ==>
        && app.store.notes == old(app.store.notes)[uuid := NewNote(now, uuid, old(draft))]
        && app.state == old(app.state).(addingNote := false)
        && draft == "" && refreshes == old(refreshes) + 1
    {
      var reaction := OnKeyDown(key, ctrlKey, metaKey);
      preventDefault := reaction.preventDefault;
      match reaction.callback
      case CallCancel => Cancel();
      case CallSave => Save(now, uuid, fault);
      case NoCallback =>
    }
  }
}
