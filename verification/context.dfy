/** The UI state and its reducer (src/context/NoteContext.tsx). Every
    action returns a new state; each `SET_*` action replaces exactly one
    field, `LOGIN` and `LOGOUT` touch the login flag (and the note list),
    and an action the reducer does not know returns the state unchanged. */
module NoteContext {
  import opened Types

  datatype State = State(
    isLoggedIn: bool,
    notes: seq<Note>,
    username: string,
    password: string,
    isSyncing: bool,
    syncMessage: Option<string>,
    dateRange: DateRange,
    sortOption: SortOption,
    errorMessage: Option<string>,
    editingNote: Option<Note>,
    newNoteContent: string,
    addingNote: bool,
    syncDays: int)

  /** The actions dispatched in the client. `Unhandled` stands for the
      action types no case of the reducer names (`ADD_TOAST` and
      `REMOVE_TOAST` are dispatched by the toast and login components). */
  datatype Action =
    | Login
    | Logout
    | SetNotes(notes: seq<Note>)
    | SetUsername(username: string)
    | SetPassword(password: string)
    | SetSyncing(syncing: bool)
    | SetSyncMessage(syncMessage: Option<string>)
    | SetDateRange(range: DateRange)
    | SetSortOption(sortOption: SortOption)
    | SetErrorMessage(errorMessage: Option<string>)
    | SetEditingNote(editingNote: Option<Note>)
    | SetNewNoteContent(content: string)
    | SetAddingNote(adding: bool)
    | SetSyncDays(days: int)
    | Unhandled(tag: string)

  /** The names of the state's fields. */
  datatype Field =
    | LoggedInField | NotesField | UsernameField | PasswordField | SyncingField
    | SyncMessageField | DateRangeField | SortOptionField | ErrorMessageField
    | EditingNoteField | NewNoteContentField | AddingNoteField | SyncDaysField

  /** The fields an action is allowed to change. */
  function Touches(a: Action): set<Field>
  {
    match a
    case Login => {LoggedInField}
    case Logout => {LoggedInField, NotesField}
    case SetNotes(_) => {NotesField}
    case SetUsername(_) => {UsernameField}
    case SetPassword(_) => {PasswordField}
    case SetSyncing(_) => {SyncingField}
    case SetSyncMessage(_) => {SyncMessageField}
    case SetDateRange(_) => {DateRangeField}
    case SetSortOption(_) => {SortOptionField}
    case SetErrorMessage(_) => {ErrorMessageField}
    case SetEditingNote(_) => {EditingNoteField}
    case SetNewNoteContent(_) => {NewNoteContentField}
    case SetAddingNote(_) => {AddingNoteField}
    case SetSyncDays(_) => {SyncDaysField}
    case Unhandled(_) => {}
  }

  /** `s` and `t` hold the same value in field `f`. */
  predicate Agree(s: State, t: State, f: Field)
  {
    match f
    case LoggedInField => s.isLoggedIn == t.isLoggedIn
    case NotesField => s.notes == t.notes
    case UsernameField => s.username == t.username
    case PasswordField => s.password == t.password
    case SyncingField => s.isSyncing == t.isSyncing
    case SyncMessageField => s.syncMessage == t.syncMessage
    case DateRangeField => s.dateRange == t.dateRange
    case SortOptionField => s.sortOption == t.sortOption
    case ErrorMessageField => s.errorMessage == t.errorMessage
    case EditingNoteField => s.editingNote == t.editingNote
    case NewNoteContentField => s.newNoteContent == t.newNoteContent
    case AddingNoteField => s.addingNote == t.addingNote
    case SyncDaysField => s.syncDays == t.syncDays
  }

  /** What an action establishes in the fields it touches. */
  predicate Establishes(a: Action, t: State)
  {
    match a
    case Login => t.isLoggedIn
    case Logout => !t.isLoggedIn && t.notes == []
    case SetNotes(ns) => t.notes == ns
    case SetUsername(u) => t.username == u
    case SetPassword(p) => t.password == p
    case SetSyncing(b) => t.isSyncing == b
    case SetSyncMessage(m) => t.syncMessage == m
    case SetDateRange(r) => t.dateRange == r
    case SetSortOption(o) => t.sortOption == o
    case SetErrorMessage(m) => t.errorMessage == m
    case SetEditingNote(n) => t.editingNote == n
    case SetNewNoteContent(c) => t.newNoteContent == c
    case SetAddingNote(b) => t.addingNote == b
    case SetSyncDays(d) => t.syncDays == d
    case Unhandled(_) => true
  }

  /** A `SET_*` action: it replaces one field with its payload. */
  predicate IsSetter(a: Action)
  {
    !a.Login? && !a.Logout? && !a.Unhandled?
  }

  function InitialState(): (s: State)
    ensures !s.isLoggedIn && s.notes == [] && !s.isSyncing && !s.addingNote
    ensures s.syncMessage == None && s.errorMessage == None && s.editingNote == None
    ensures s.sortOption == SortOption(CTime, Desc) && s.syncDays == 7
    ensures s.dateRange == DateRange(Blank, Blank)
    ensures s.username == "" && s.password == "" && s.newNoteContent == ""
  {
    State(
      isLoggedIn := false,
      notes := [],
      username := "",
      password := "",
      isSyncing := false,
      syncMessage := None,
      dateRange := DateRange(Blank, Blank),
      sortOption := SortOption(CTime, Desc),
      errorMessage := None,
      editingNote := None,
      newNoteContent := "",
      addingNote := false,
      syncDays := 7)
  }

  /** `noteReducer(state, action)`. */
  function Reduce(s: State, a: Action): (r: State)
    ensures forall f :: f !in Touches(a) ==> Agree(s, r, f)
    ensures Establishes(a, r)
  {
    match a
    case Login => s.(isLoggedIn := true)
    case Logout => s.(isLoggedIn := false, notes := [])
    case SetNotes(ns) => s.(notes := ns)
    case SetUsername(u) => s.(username := u)
    case SetPassword(p) => s.(password := p)
    case SetSyncing(b) => s.(isSyncing := b)
    case SetSyncMessage(m) => s.(syncMessage := m)
    case SetDateRange(rg) => s.(dateRange := rg)
    case SetSortOption(o) => s.(sortOption := o)
    case SetErrorMessage(m) => s.(errorMessage := m)
    case SetEditingNote(n) => s.(editingNote := n)
    case SetNewNoteContent(c) => s.(newNoteContent := c)
    case SetAddingNote(b) => s.(addingNote := b)
    case SetSyncDays(d) => s.(syncDays := d)
    case Unhandled(_) => s
  }

  /** States that agree on every field are equal. */
  lemma AgreeEverywhere(t: State, r: State)
    requires forall f :: Agree(t, r, f)
    ensures t == r
  {
    assert Agree(t, r, LoggedInField) && Agree(t, r, NotesField) && Agree(t, r, UsernameField);
    assert Agree(t, r, PasswordField) && Agree(t, r, SyncingField) && Agree(t, r, SyncMessageField);
    assert Agree(t, r, DateRangeField) && Agree(t, r, SortOptionField) && Agree(t, r, ErrorMessageField);
    assert Agree(t, r, EditingNoteField) && Agree(t, r, NewNoteContentField) && Agree(t, r, AddingNoteField);
    assert Agree(t, r, SyncDaysField);
  }

  /** The frame and the effect determine the reducer: a state that keeps
      every untouched field and establishes the action's effect is the
      reducer's result. */
  lemma ReduceDetermined(s: State, a: Action, t: State)
    requires forall f :: f !in Touches(a) ==> Agree(s, t, f)
    requires Establishes(a, t)
    ensures t == Reduce(s, a)
  {
    var r := Reduce(s, a);
    forall f
      ensures Agree(t, r, f)
    {
      if f !in Touches(a) {
        assert Agree(s, t, f) && Agree(s, r, f);
      } else {
        assert Establishes(a, r);
      }
    }
    AgreeEverywhere(t, r);
  }

  /** Dispatching the same action twice is dispatching it once. */
  lemma ReduceIdempotent(s: State, a: Action)
    ensures Reduce(Reduce(s, a), a) == Reduce(s, a)
  {
  }

  /** Of two `SET_*` actions on the same field, the later one wins. */
  lemma SetterLastWins(s: State, a: Action, b: Action)
    requires IsSetter(a) && Touches(a) == Touches(b)
    ensures Reduce(Reduce(s, a), b) == Reduce(s, b)
  {
  }

  /** `LOGOUT` empties the note list and keeps the credentials, the sync
      settings and everything else but the login flag. */
  lemma LogoutKeepsSettings(s: State)
    ensures var r := Reduce(s, Logout);
      !r.isLoggedIn && r.notes == [] && r.username == s.username && r.password == s.password
      && r.syncDays == s.syncDays && r.sortOption == s.sortOption && r.dateRange == s.dateRange
  {
  }
}
