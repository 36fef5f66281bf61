/** The local store of src/services/db.ts: a `notes` table whose key path
    is `uuid`, so `put` inserts or replaces the record with that uuid, and
    a `sync` table holding the single `lastSync` record. A failed `put`
    writes nothing (each `put` is its own transaction); whether it fails is
    an input of the model. */
module Db {
  import opened Types

  datatype LastSync = LastSync(timestamp: string)

  /** Every record is stored under its own uuid. */
  ghost predicate KeyedByUuid(m: map<string, Note>)
  {
    forall u :: u in m ==> m[u].uuid == u
  }

  /** `listed` holds every record of `m` exactly once (the result of
      `getAll`; the order the database returns them in is not modelled). */
  ghost predicate Enumerates(listed: seq<Note>, m: map<string, Note>)
  {
    && |listed| == |m|
    && (forall i :: 0 <= i < |listed| ==> listed[i].uuid in m && m[listed[i].uuid] == listed[i])
    && (forall u :: u in m ==> m[u] in listed)
    && (forall i, j :: 0 <= i < j < |listed| ==> listed[i].uuid != listed[j].uuid)
  }

  class NoteStore {
    var notes: map<string, Note>
    var lastSync: Option<LastSync>

    ghost predicate Valid()
      reads this
    {
      KeyedByUuid(notes)
    }

    /** A freshly opened, empty database. */
    constructor ()
      ensures Valid()
      ensures notes == map[] && lastSync == None
    {
      notes := map[];
      lastSync := None;
    }

    /** `saveNote(note)`: `put` into the notes table. */
    method SaveNote(note: Note, fault: bool) returns (ok: bool)
      requires Valid()
      modifies this
      ensures Valid()
      ensures ok == !fault
      ensures notes == if ok then old(notes)[note.uuid := note] else old(notes)
      ensures lastSync == old(lastSync)
    {
      ok := !fault;
      if ok {
        notes := notes[note.uuid := note];
      }
    }

    /** `getAllNotes()`. */
    method GetAllNotes() returns (all: seq<Note>)
      requires Valid()
      ensures Enumerates(all, notes)
    {
      all := [];
      var rest := notes.Keys;
      while rest != {}
        invariant rest <= notes.Keys
        invariant |all| + |rest| == |notes|
        invariant forall i :: 0 <= i < |all| ==> all[i].uuid in notes.Keys - rest && notes[all[i].uuid] == all[i]
        invariant forall u :: u in notes.Keys - rest ==> notes[u] in all
        invariant forall i, j :: 0 <= i < j < |all| ==> all[i].uuid != all[j].uuid
        decreases |rest|
      {
        var u :| u in rest;
        all := all + [notes[u]];
        rest := rest - {u};
      }
    }

    /** `getLastSync()`: nothing until `setLastSync` has been called. */
    method GetLastSync() returns (r: Option<LastSync>)
      ensures r == lastSync
    {
      r := lastSync;
    }

    /** `setLastSync(timestamp)`: overwrites the single `lastSync` slot. */
    method SetLastSync(timestamp: string)
      modifies this
      ensures lastSync == Some(LastSync(timestamp))
      ensures notes == old(notes)
    {
      lastSync := Some(LastSync(timestamp));
    }
  }

  /** A note just written is among the notes `getAllNotes` lists. */
  lemma SavedNoteIsListed(m: map<string, Note>, n: Note, listed: seq<Note>)
    requires Enumerates(listed, m[n.uuid := n])
    ensures n in listed
  {
    assert n.uuid in m[n.uuid := n];
  }

  /** The watermark round trip: after `setLastSync(t1)` and
      `setLastSync(t2)`, `getLastSync()` yields `t2`, and the notes are
      untouched. */
  method WatermarkRoundTrip(store: NoteStore, t1: string, t2: string) returns (r: Option<LastSync>)
    requires store.Valid()
    modifies store
    ensures r == Some(LastSync(t2))
    ensures store.notes == old(store.notes)
  {
    store.SetLastSync(t1);
    var first := store.GetLastSync();
    assert first == Some(LastSync(t1));
    store.SetLastSync(t2);
    r := store.GetLastSync();
  }
}
