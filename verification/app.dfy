/** The note-handling logic of src/App.tsx: sorting with the current sort
    option, the inclusive date-range filter, the date range set after a
    load, the manual sync session, note creation, and the sort change.
    The component's handlers become methods of `NotesApp`, which holds the
    reducer state and the local store; "now", the server's reply, the
    failures of individual store writes and generated uuids are inputs. */
module App {
  import opened Types
  import opened NoteContext
  import opened NoteSort
  import opened Db

  const SyncSucceeded: string := "同步成功"
  const SyncFailed: string := "同步失败，请稍后重试"

  /** The end of the sync window's last day, `T23:59:59Z`, in ms after midnight. */
  const LastSecondOfDay: int := 86399000

  // ---------------------------------------------------------------------
  // Pure rules

  function DirectionName(d: SortDirection): string
  {
    match d
    case Desc => "desc"
    case Asc => "asc"
  }

  /** App's own `sortNotes`: the comparator of src/utils/note.ts applied
      with the field and direction of a sort option. */
  function SortBy(opt: SortOption, notes: seq<Note>): (r: seq<Note>)
    ensures |r| == |notes| && multiset(r) == multiset(notes)
    ensures Ordered(r, opt.field, opt.direction == Desc)
    ensures forall k :: WithKey(r, opt.field, k) == WithKey(notes, opt.field, k)
  {
    SortNotes(opt.field, DirectionName(opt.direction), notes)
  }

  /** The window of a sync request sent on day `today`: from midnight of
      the day `syncDays` days earlier to the last second of today. */
  function SyncWindowFor(today: int, syncDays: int): (w: SyncWindow)
    ensures DayOf(w.fromMs) == today - syncDays && w.fromMs % MsPerDay == 0
    ensures DayOf(w.toMs) == today && w.toMs % MsPerDay == LastSecondOfDay
    ensures w.fromMs <= w.toMs <==> syncDays >= 0
  {
    SyncWindow((today - syncDays) * MsPerDay, today * MsPerDay + LastSecondOfDay)
  }

  /** The note's `YYYY-MM-DD` prefix lies in the range, both ends included,
      under string comparison. */
  predicate InRange(n: Note, range: DateRange)
  {
    DateLe(range.startDate, DateOf(n)) && DateLe(DateOf(n), range.endDate)
  }

  /** The `filter` of `filterNotesByDateRange`. */
  function FilterByRange(notes: seq<Note>, range: DateRange): (r: seq<Note>)
    ensures forall n :: multiset(r)[n] == if InRange(n, range) then multiset(notes)[n] else 0
    ensures forall i :: 0 <= i < |r| ==> InRange(r[i], range)
  {
    if notes == [] then []
    else
      assert notes == [notes[0]] + notes[1..];
      (if InRange(notes[0], range) then [notes[0]] else []) + FilterByRange(notes[1..], range)
  }

  /** A range whose start lies after its end keeps no note. */
  lemma FilterReversedRangeEmpty(notes: seq<Note>, range: DateRange)
    requires !DateLe(range.startDate, range.endDate)
    ensures FilterByRange(notes, range) == []
  {
    var r := FilterByRange(notes, range);
    if r != [] {
      DateLeTransitive(range.startDate, DateOf(r[0]), range.endDate);
    }
  }

  /** A range that holds every note of a list keeps the whole list. */
  lemma {:induction false} FilterKeepsAll(notes: seq<Note>, range: DateRange)
    requires forall i :: 0 <= i < |notes| ==> InRange(notes[i], range)
    ensures FilterByRange(notes, range) == notes
  {
    if notes != [] {
      FilterKeepsAll(notes[1..], range);
      assert notes == [notes[0]] + notes[1..];
    }
  }

  /** The range `loadLocalNotes` sets for a sorted list: from the date of
      its last note to the date of its first, or today..today when empty. */
  function LoadedRange(sorted: seq<Note>, today: int): DateRange
  {
    if |sorted| > 0 then DateRange(DateOf(sorted[|sorted| - 1]), DateOf(sorted[0]))
    else DateRange(Date(today), Date(today))
  }

  /** Under the initial newest-first order the loaded range is well formed
      and holds every loaded note. */
  lemma NewestFirstRangeCoversAll(notes: seq<Note>, today: int)
    ensures var sorted := SortBy(SortOption(CTime, Desc), notes);
      var r := LoadedRange(sorted, today);
      DateLe(r.startDate, r.endDate) && FilterByRange(sorted, r) == sorted
  {
    var sorted := SortBy(SortOption(CTime, Desc), notes);
    var r := LoadedRange(sorted, today);
    if |sorted| > 0 {
      var last := |sorted| - 1;
      forall i | 0 <= i < |sorted|
        ensures InRange(sorted[i], r)
      {
        assert i < last ==> InOrder(sorted[i], sorted[last], CTime, true);
        assert 0 < i ==> InOrder(sorted[0], sorted[i], CTime, true);
        DayOfMonotone(sorted[last].ctime, sorted[i].ctime);
        DayOfMonotone(sorted[i].ctime, sorted[0].ctime);
      }
    }
    FilterKeepsAll(sorted, r);
  }

  /** Under an oldest-first order the loaded range runs from the newest
      day back to the oldest: it is well formed only when every note was
      created on the same day. */
  lemma OldestFirstRangeIsReversed(notes: seq<Note>, today: int)
    ensures var sorted := SortBy(SortOption(CTime, Asc), notes);
      var r := LoadedRange(sorted, today);
      DateLe(r.startDate, r.endDate) <==> forall i :: 0 <= i < |sorted| ==> DayOf(sorted[i].ctime) == DayOf(sorted[0].ctime)
  {
  }

  lemma DayOfMonotone(a: int, b: int)
    requires a <= b
    ensures DayOf(a) <= DayOf(b)
  {
  }

  /** The note `handleAddNote` creates: `id` and both timestamps from the
      clock, the untrimmed draft as content, no deletion time. */
  function NewNote(now: int, uuid: string, content: string): Note
  {
    Note(now, uuid, now, now, content, None)
  }

  /** `!s.trim()`: the draft counts as empty. */
  predicate IsBlank(s: string)
  {
    Trim(s) == ""
  }

  // ---------------------------------------------------------------------
  // Applying a sync reply to the store

  /** The store after `put`ting the notes of `ns` one after another. */
  function Upserts(m: map<string, Note>, ns: seq<Note>): (r: map<string, Note>)
    ensures forall u :: u in r <==> u in m || u in Uuids(ns)
    ensures KeyedByUuid(m) ==> KeyedByUuid(r)
    decreases |ns|
  {
    if ns == [] then m
    else
      var last := ns[|ns| - 1];
      assert ns == ns[..|ns| - 1] + [last];
      UuidsAppend(ns[..|ns| - 1], [last]);
      assert Uuids([last]) == [last.uuid];
      Upserts(m, ns[..|ns| - 1])[last.uuid := last]
  }

  /** Per uuid, the store holds the last note of `ns` with that uuid, and
      keeps its old entry, or its absence, for a uuid `ns` does not hold. */
  lemma {:induction false} UpsertsAt(m: map<string, Note>, ns: seq<Note>, u: string)
    ensures LastIndex(Uuids(ns), u).None? ==> (u in Upserts(m, ns) <==> u in m)
    ensures LastIndex(Uuids(ns), u).None? && u in m ==> Upserts(m, ns)[u] == m[u]
    ensures LastIndex(Uuids(ns), u).Some? ==> Upserts(m, ns)[u] == ns[LastIndex(Uuids(ns), u).value]
    decreases |ns|
  {
    if ns != [] {
      var init := ns[..|ns| - 1];
      assert ns == init + [ns[|ns| - 1]];
      UuidsAppend(init, [ns[|ns| - 1]]);
      assert Uuids([ns[|ns| - 1]]) == [ns[|ns| - 1].uuid];
      if ns[|ns| - 1].uuid != u {
        UpsertsAt(m, init, u);
      }
    }
  }

  /** Writing `p` and then `q` is writing `p + q`. */
  lemma {:induction false} UpsertsAppend(m: map<string, Note>, p: seq<Note>, q: seq<Note>)
    ensures Upserts(m, p + q) == Upserts(Upserts(m, p), q)
    decreases |q|
  {
    if q == [] {
      assert p + q == p;
    } else {
      assert (p + q)[..|p + q| - 1] == p + q[..|q| - 1];
      UpsertsAppend(m, p, q[..|q| - 1]);
    }
  }

  /** A failure of the transport (the request or the JSON decoding threw)
      or a decoded reply, whose note lists may be missing. */
  datatype Reply = Delivered(response: SyncResponse) | TransportFailure

  /** The notes the sync loop writes, in order: `server_newer` and then
      `only_on_server`, a missing list counting as empty. */
  function Pulled(reply: Reply): seq<Note>
  {
    match reply
    case Delivered(resp) => OrEmpty(resp.serverNewer) + OrEmpty(resp.onlyOnServer)
    case TransportFailure => []
  }

  /** How many writes of the loop succeed when the writes at the positions
      in `failing` throw: the loop stops at the first failure. */
  function SavedPrefix(n: nat, failing: set<nat>): (k: nat)
    ensures k <= n
    ensures forall j :: 0 <= j < k ==> j !in failing
    ensures k < n ==> k in failing
  {
    if n == 0 then 0
    else
      var k := SavedPrefix(n - 1, failing);
      if k < n - 1 || n - 1 in failing then k else n
  }

  /** The notes that reach the store. */
  function Applied(reply: Reply, failing: set<nat>): seq<Note>
  {
    Pulled(reply)[..SavedPrefix(|Pulled(reply)|, failing)]
  }

  /** The session reaches its success branch. */
  predicate Succeeds(reply: Reply, failing: set<nat>)
  {
    reply.Delivered? && SavedPrefix(|Pulled(reply)|, failing) == |Pulled(reply)|
  }

  /** An error-shaped reply (only `code` and `error`) writes nothing and
      still counts as a success: the client never looks at `code`/`error`. */
  lemma ErrorReplyIsSilentSuccess(resp: SyncResponse, failing: set<nat>)
    requires resp.serverNewer.None? && resp.onlyOnServer.None?
    ensures Applied(Delivered(resp), failing) == []
    ensures Succeeds(Delivered(resp), failing)
  {
  }

  /** A uuid in `only_on_server` ends with its last `only_on_server` copy,
      whatever `server_newer` held for it. */
  lemma OnlyOnServerCopyWins(m: map<string, Note>, resp: SyncResponse, u: string)
    requires u in Uuids(OrEmpty(resp.onlyOnServer))
    ensures var only := OrEmpty(resp.onlyOnServer);
      var r := Upserts(m, Pulled(Delivered(resp)));
      u in r && r[u] == only[LastIndex(Uuids(only), u).value]
  {
    var only := OrEmpty(resp.onlyOnServer);
    UpsertsAppend(m, OrEmpty(resp.serverNewer), only);
    UpsertsAt(Upserts(m, OrEmpty(resp.serverNewer)), only, u);
  }

  /** The writes that take effect are a prefix of the reply's notes. */
  lemma AppliedUuidsArePulled(reply: Reply, failing: set<nat>)
    ensures forall u :: u in Uuids(Applied(reply, failing)) ==> u in Uuids(Pulled(reply))
  {
    var pulled := Pulled(reply);
    var k := SavedPrefix(|pulled|, failing);
    assert pulled == pulled[..k] + pulled[k..];
    UuidsAppend(pulled[..k], pulled[k..]);
  }

  /** A uuid the reply does not mention keeps its entry, or its absence,
      however many writes succeed. */
  lemma SyncKeepsUnmentioned(m: map<string, Note>, reply: Reply, failing: set<nat>, u: string)
    requires u !in Uuids(Pulled(reply))
    ensures var r := Upserts(m, Applied(reply, failing));
      (u in r <==> u in m) && (u in m ==> r[u] == m[u])
  {
    AppliedUuidsArePulled(reply, failing);
    UpsertsAt(m, Applied(reply, failing), u);
  }

  /** A failed session leaves its successful writes in place (no
      rollback), and a later session that gets the same reply and writes
      all of it ends with the store a single successful session gives. */
  lemma RetryConverges(m: map<string, Note>, reply: Reply, failing: set<nat>)
    ensures Upserts(Upserts(m, Applied(reply, failing)), Pulled(reply)) == Upserts(m, Pulled(reply))
  {
    var pulled := Pulled(reply);
    var applied := Applied(reply, failing);
    var once := Upserts(m, pulled);
    var twice := Upserts(Upserts(m, applied), pulled);
    forall u
      ensures (u in twice <==> u in once) && (u in once ==> twice[u] == once[u])
    {
      UpsertsAt(m, pulled, u);
      UpsertsAt(Upserts(m, applied), pulled, u);
      if LastIndex(Uuids(pulled), u).None? {
        AppliedUuidsArePulled(reply, failing);
        UpsertsAt(m, applied, u);
      }
    }
  }

  // ---------------------------------------------------------------------
  // The sort change

  /** The sort change as the handler wants it: the new option, and the
      list re-sorted by it. */
  function SortChange(s: State, opt: SortOption): (r: State)
    ensures r.sortOption == opt
    ensures multiset(r.notes) == multiset(s.notes)
    ensures Ordered(r.notes, opt.field, opt.direction == Desc)
    ensures r == s.(sortOption := opt, notes := r.notes)
  {
    Reduce(Reduce(s, SetSortOption(opt)), SetNotes(SortBy(opt, s.notes)))
  }

  /** `handleSortChange` as written: `sortNotes` reads the sort option of
      the render the handler belongs to, so the list is re-sorted with the
      option being replaced. */
  function SortChangeAsWritten(s: State, opt: SortOption): (r: State)
    ensures r.sortOption == opt
    ensures multiset(r.notes) == multiset(s.notes)
    ensures Ordered(r.notes, s.sortOption.field, s.sortOption.direction == Desc)
    ensures r == s.(sortOption := opt, notes := r.notes)
  {
    Reduce(Reduce(s, SetSortOption(opt)), SetNotes(SortBy(s.sortOption, s.notes)))
  }

  /** Two notes shown newest first; switching to oldest first leaves them
      newest first. */
  lemma SortChangeAsWrittenKeepsOldOrder()
    ensures var older := Note(1, "a", 1000, 1000, "", None);
      var newer := Note(2, "b", 2000, 2000, "", None);
      var s := InitialState().(notes := [newer, older]);
      var opt := SortOption(CTime, Asc);
      var r := SortChangeAsWritten(s, opt);
      r.sortOption == opt && r.notes == [newer, older] && !Ordered(r.notes, opt.field, opt.direction == Desc)
  {
  }

  // ---------------------------------------------------------------------
  // The component

  /** The `App` component: the reducer state it renders and the local
      store its handlers read and write. */
  class NotesApp {
    var state: State
    const store: NoteStore

    ghost predicate Valid()
      reads this, store
    {
      store.Valid()
    }

    constructor (store: NoteStore)
      requires store.Valid()
      ensures Valid()
      ensures this.store == store && state == InitialState()
    {
      this.store := store;
      state := InitialState();
    }

    /** `dispatch(action)`. */
    method Dispatch(a: Action)
      modifies this
      ensures state == Reduce(old(state), a)
    {
      state := Reduce(state, a);
    }

    /** `loadLocalNotes`: every stored note, sorted, becomes the list, and
        the date range is set from the sorted list. */
    method LoadLocalNotes(today: int) returns (ghost listed: seq<Note>)
      requires Valid()
      modifies this
      ensures Valid()
      ensures Enumerates(listed, store.notes)
      ensures var sorted := SortBy(old(state).sortOption, listed);
        state == old(state).(notes := sorted, dateRange := LoadedRange(sorted, today))
    {
      var all := store.GetAllNotes();
      listed := all;
      var sorted := SortBy(state.sortOption, all);
      Dispatch(SetNotes(sorted));
      if |sorted| > 0 {
        Dispatch(SetDateRange(DateRange(DateOf(sorted[|sorted| - 1]), DateOf(sorted[0]))));
      } else {
        Dispatch(SetDateRange(DateRange(Date(today), Date(today))));
      }
    }

    /** `handleDateRangeChange`: the range is set, and the list becomes
        the stored notes in the range, sorted. */
    method HandleDateRangeChange(range: DateRange) returns (ghost listed: seq<Note>)
      requires Valid()
      modifies this
      ensures Valid()
      ensures Enumerates(listed, store.notes)
      ensures state == old(state).(dateRange := range, notes := SortBy(old(state).sortOption, FilterByRange(listed, range)))
    {
      var seen := state;
      Dispatch(SetDateRange(range));
      var all := store.GetAllNotes();
      listed := all;
      Dispatch(SetNotes(SortBy(seen.sortOption, FilterByRange(all, range))));
    }

    /** `handleSortChange` as written: the option is replaced, and the
        list is re-sorted by `sortNotes` of the handler's render, which
        still reads the replaced option (see `SortChange` for the intended
        effect). */
    method HandleSortChange(opt: SortOption)
      modifies this
      ensures state == SortChangeAsWritten(old(state), opt)
    {
      var seen := state;
      Dispatch(SetSortOption(opt));
      Dispatch(SetNotes(SortBy(seen.sortOption, seen.notes)));
    }

    /** `handleManualSync` on day `DayOf(now)`: the request carries the
        loaded list; the reply's notes are written one by one until a write
        fails; the store is reloaded only on success. */
    method ManualSync(now: int, reply: Reply, failing: set<nat>) returns (sent: SyncRequest, ghost listed: seq<Note>)
      requires Valid()
      modifies this, store
      ensures Valid()
      ensures sent == SyncRequest(SyncWindowFor(DayOf(now), old(state).syncDays), old(state).notes)
      ensures store.notes == Upserts(old(store.notes), Applied(reply, failing))
      ensures store.lastSync == old(store.lastSync)
      ensures Succeeds(reply, failing) ==> Enumerates(listed, store.notes)
      ensures Succeeds(reply, failing) ==>
        var sorted := SortBy(old(state).sortOption, listed);
        state == old(state).(isSyncing := false, syncMessage := Some(SyncSucceeded),
                             notes := sorted, dateRange := LoadedRange(sorted, DayOf(now)))
      ensures !Succeeds(reply, failing) ==>
        state == old(state).(isSyncing := false, syncMessage := Some(SyncFailed))
    {
      var seen := state;
      Dispatch(SetSyncing(true));
      Dispatch(SetSyncMessage(None));
      assert state == seen.(isSyncing := true, syncMessage := None);
      var today := DayOf(now);
      sent := SyncRequest(SyncWindowFor(today, seen.syncDays), seen.notes);
      var pulled := Pulled(reply);
      var ok := false;
      if reply.Delivered? {
        var saved := SaveAll(pulled, failing);
        ok := saved == |pulled|;
      }
      assert ok == Succeeds(reply, failing);
      assert store.notes == Upserts(old(store.notes), Applied(reply, failing));
      listed := [];
      if ok {
        listed := LoadLocalNotes(today);
        Dispatch(SetSyncMessage(Some(SyncSucceeded)));
      } else {
        Dispatch(SetSyncMessage(Some(SyncFailed)));
      }
      Dispatch(SetSyncing(false));
    }

    /** The loop of `handleManualSync`: `saveNote` for each note in turn;
        the first write that throws ends it, and nothing is undone. */
    method SaveAll(pulled: seq<Note>, failing: set<nat>) returns (saved: nat)
      requires Valid()
      modifies store
      ensures Valid()
      ensures saved == SavedPrefix(|pulled|, failing)
      ensures store.notes == Upserts(old(store.notes), pulled[..saved])
      ensures store.lastSync == old(store.lastSync)
    {
      ghost var k := SavedPrefix(|pulled|, failing);
      var ok := true;
      saved := 0;
      while ok && saved < |pulled|
        invariant 0 <= saved <= k
        invariant store.Valid()
        invariant store.notes == Upserts(old(store.notes), pulled[..saved])
        invariant store.lastSync == old(store.lastSync)
        invariant !ok ==> saved == k
        decreases |pulled| - saved, ok
      {
        var written := store.SaveNote(pulled[saved], saved in failing);
        if written {
          assert pulled[..saved + 1][..saved] == pulled[..saved];
          saved := saved + 1;
        } else {
          ok := false;
        }
      }
    }

    /** `handleAddNote`: a blank draft does nothing; otherwise the draft is
        saved as a new note under `uuid`, the draft is cleared and the
        store reloaded. A failed write throws before the draft is cleared. */
    method HandleAddNote(now: int, uuid: string, fault: bool) returns (ghost listed: seq<Note>)
      requires Valid()
      modifies this, store
      ensures Valid()
      ensures store.lastSync == old(store.lastSync)
      ensures IsBlank(old(state).newNoteContent) || fault ==>
        state == old(state) && store.notes == old(store.notes)
      ensures !IsBlank(old(state).newNoteContent) && !fault ==>
        && store.notes == old(store.notes)[uuid := NewNote(now, uuid, old(state).newNoteContent)]
        && Enumerates(listed, store.notes)
        && var sorted := SortBy(old(state).sortOption, listed);
           state == old(state).(newNoteContent := "", notes := sorted, dateRange := LoadedRange(sorted, DayOf(now)))
      ensures !IsBlank(old(state).newNoteContent) && !fault && uuid !in old(store.notes) ==>
        |store.notes| == |old(store.notes)| + 1 && store.notes[uuid].content == old(state).newNoteContent
    {
      listed := [];
      if !IsBlank(state.newNoteContent) {
        var note := NewNote(now, uuid, state.newNoteContent);
        var saved := store.SaveNote(note, fault);
        if saved {
          Dispatch(SetNewNoteContent(""));
          listed := LoadLocalNotes(DayOf(now));
        }
      }
    }
  }
}
