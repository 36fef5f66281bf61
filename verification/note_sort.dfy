/** `sortNotes` of src/utils/note.ts: a copy of the list sorted by one
    timestamp field, newest first for the direction "desc" and oldest first
    for every other direction string. The copy is a value, so the caller's
    list is untouched by construction. JavaScript's sort is stable, so the
    model is a stable insertion sort; SortUnique shows that every stable
    sort returns the same list. */
module NoteSort {
  import opened Types

  /** The millisecond value `new Date(note[field]).getTime()`. */
  function Key(n: Note, field: SortField): int
  {
    match field
    case CTime => n.ctime
    case MTime => n.mtime
  }

  /** The comparator is negative: `x` must come strictly before `y`. */
  predicate Precedes(x: Note, y: Note, field: SortField, desc: bool)
  {
    if desc then Key(x, field) > Key(y, field) else Key(x, field) < Key(y, field)
  }

  /** `x` may stand before `y`: the comparator is not positive. */
  predicate InOrder(x: Note, y: Note, field: SortField, desc: bool)
  {
    if desc then Key(x, field) >= Key(y, field) else Key(x, field) <= Key(y, field)
  }

  predicate Ordered(s: seq<Note>, field: SortField, desc: bool)
  {
    forall i, j :: 0 <= i < j < |s| ==> InOrder(s[i], s[j], field, desc)
  }

  /** The notes of `s` whose timestamp is `k`, in the order of `s`. */
  function WithKey(s: seq<Note>, field: SortField, k: int): seq<Note>
  {
    if s == [] then []
    else (if Key(s[0], field) == k then [s[0]] else []) + WithKey(s[1..], field, k)
  }

  /** Unfolds `WithKey` on a list given as head and tail. */
  lemma WithKeyCons(a: Note, t: seq<Note>, field: SortField)
    ensures forall k :: WithKey([a] + t, field, k) == (if Key(a, field) == k then [a] else []) + WithKey(t, field, k)
  {
    assert ([a] + t)[1..] == t;
  }

  lemma OrderedCons(a: Note, t: seq<Note>, field: SortField, desc: bool)
    requires Ordered(t, field, desc)
    requires forall y :: y in t ==> InOrder(a, y, field, desc)
    ensures Ordered([a] + t, field, desc)
  {
    forall i, j | 0 <= i < j < |[a] + t|
      ensures InOrder(([a] + t)[i], ([a] + t)[j], field, desc)
    {
      if i > 0 {
        assert ([a] + t)[i] == t[i - 1] && ([a] + t)[j] == t[j - 1];
      } else {
        assert ([a] + t)[j] in t;
      }
    }
  }

  /** Insert `x` in front of the first element that does not strictly
      precede it, so that `x` goes before the notes with an equal key. */
  function Insert(x: Note, t: seq<Note>, field: SortField, desc: bool): (r: seq<Note>)
    requires Ordered(t, field, desc)
    ensures multiset(r) == multiset(t) + multiset{x}
    ensures Ordered(r, field, desc)
  {
    if t != [] && Precedes(t[0], x, field, desc) then
      var rest := Insert(x, t[1..], field, desc);
      InsertHeadInOrder(x, t, rest, field, desc);
      OrderedCons(t[0], rest, field, desc);
      assert t == [t[0]] + t[1..];
      [t[0]] + rest
    else
      assert forall y :: y in t ==> InOrder(x, y, field, desc);
      OrderedCons(x, t, field, desc);
      [x] + t
  }

  lemma InsertHeadInOrder(x: Note, t: seq<Note>, rest: seq<Note>, field: SortField, desc: bool)
    requires Ordered(t, field, desc) && t != [] && Precedes(t[0], x, field, desc)
    requires multiset(rest) == multiset(t[1..]) + multiset{x}
    ensures forall y :: y in rest ==> InOrder(t[0], y, field, desc)
  {
    forall y | y in rest
      ensures InOrder(t[0], y, field, desc)
    {
      assert y in multiset(rest);
      if y != x {
        assert y in multiset(t[1..]);
        var j :| 0 <= j < |t[1..]| && t[1..][j] == y;
        assert t[j + 1] == y;
      }
    }
  }

  /** Inserting `x` adds it in front of the notes that share its key. */
  lemma {:induction false} InsertWithKey(x: Note, t: seq<Note>, field: SortField, desc: bool)
    requires Ordered(t, field, desc)
    ensures forall k :: WithKey(Insert(x, t, field, desc), field, k) == (if Key(x, field) == k then [x] else []) + WithKey(t, field, k)
  {
    if t != [] && Precedes(t[0], x, field, desc) {
      var rest := Insert(x, t[1..], field, desc);
      InsertWithKey(x, t[1..], field, desc);
      WithKeyCons(t[0], rest, field);
      WithKeyCons(t[0], t[1..], field);
      assert t == [t[0]] + t[1..];
    } else {
      WithKeyCons(x, t, field);
    }
  }

  function Sort(s: seq<Note>, field: SortField, desc: bool): (r: seq<Note>)
    ensures multiset(r) == multiset(s)
    ensures Ordered(r, field, desc)
  {
    if s == [] then []
    else
      assert s == [s[0]] + s[1..];
      Insert(s[0], Sort(s[1..], field, desc), field, desc)
  }

  /** Sorting keeps the notes that share a timestamp in input order. */
  lemma {:induction false} SortWithKey(s: seq<Note>, field: SortField, desc: bool)
    ensures forall k :: WithKey(Sort(s, field, desc), field, k) == WithKey(s, field, k)
  {
    if s != [] {
      SortWithKey(s[1..], field, desc);
      InsertWithKey(s[0], Sort(s[1..], field, desc), field, desc);
      WithKeyCons(s[0], s[1..], field);
      assert s == [s[0]] + s[1..];
    }
  }

  /** `sortNotes(sortField, sortDirection, notes)`. */
  function SortNotes(field: SortField, direction: string, notes: seq<Note>): (r: seq<Note>)
    ensures |r| == |notes| && multiset(r) == multiset(notes)
    ensures Ordered(r, field, direction == "desc")
    ensures direction == "desc" ==> forall i :: 0 <= i < |r| - 1 ==> Key(r[i], field) >= Key(r[i + 1], field)
    ensures direction != "desc" ==> forall i :: 0 <= i < |r| - 1 ==> Key(r[i], field) <= Key(r[i + 1], field)
    ensures forall k :: WithKey(r, field, k) == WithKey(notes, field, k)
  {
    var r := Sort(notes, field, direction == "desc");
    SortWithKey(notes, field, direction == "desc");
    assert |r| == |multiset(r)| == |multiset(notes)| == |notes|;
    r
  }

  // ---------------------------------------------------------------------
  // The result is determined by the keys alone: any ordered permutation
  // that keeps notes with equal keys in input order is the same list.

  lemma {:induction false} WithKeyHead(s: seq<Note>, field: SortField)
    requires s != []
    ensures WithKey(s, field, Key(s[0], field)) != []
    ensures WithKey(s, field, Key(s[0], field))[0] == s[0]
  {
  }

  lemma {:induction false} WithKeyMember(s: seq<Note>, field: SortField, x: Note)
    requires x in s
    ensures x in WithKey(s, field, Key(x, field))
  {
    if s[0] != x {
      WithKeyMember(s[1..], field, x);
    }
  }

  lemma {:induction false} WithKeyMemberBack(s: seq<Note>, field: SortField, k: int, x: Note)
    requires x in WithKey(s, field, k)
    ensures x in s
  {
    if s != [] && x != s[0] {
      WithKeyMemberBack(s[1..], field, k, x);
    }
  }

  lemma {:induction false} SortUnique(r1: seq<Note>, r2: seq<Note>, field: SortField, desc: bool)
    requires Ordered(r1, field, desc) && Ordered(r2, field, desc)
    requires forall k :: WithKey(r1, field, k) == WithKey(r2, field, k)
    ensures r1 == r2
    decreases |r1|
  {
    if r1 == [] {
      if r2 != [] {
        WithKeyHead(r2, field);
      }
    } else if r2 == [] {
      assert WithKey(r2, field, Key(r1[0], field)) == [];
      WithKeyHead(r1, field);
    } else {
      var k1, k2 := Key(r1[0], field), Key(r2[0], field);
      WithKeyHead(r1, field);
      WithKeyHead(r2, field);
      // r2[0] occurs in r1 and r1[0] occurs in r2, so the two head keys bound each other.
      WithKeyMember(r2, field, r2[0]);
      WithKeyMemberBack(r1, field, k2, r2[0]);
      WithKeyMember(r1, field, r1[0]);
      WithKeyMemberBack(r2, field, k1, r1[0]);
      var i1 :| 0 <= i1 < |r1| && r1[i1] == r2[0];
      var i2 :| 0 <= i2 < |r2| && r2[i2] == r1[0];
      assert i1 > 0 ==> InOrder(r1[0], r1[i1], field, desc);
      assert i2 > 0 ==> InOrder(r2[0], r2[i2], field, desc);
      assert k1 == k2;
      assert r1[0] == WithKey(r1, field, k1)[0] == WithKey(r2, field, k1)[0] == r2[0];
      forall k
        ensures WithKey(r1[1..], field, k) == WithKey(r2[1..], field, k)
      {
        WithKeyCons(r1[0], r1[1..], field);
        WithKeyCons(r2[0], r2[1..], field);
        assert r1 == [r1[0]] + r1[1..] && r2 == [r2[0]] + r2[1..];
        var pre := if k == k1 then [r1[0]] else [];
        assert WithKey(r1, field, k) == WithKey(r2, field, k);
        assert pre + WithKey(r1[1..], field, k) == pre + WithKey(r2[1..], field, k);
        assert WithKey(r1[1..], field, k) == (pre + WithKey(r1[1..], field, k))[|pre|..];
      }
      SortUnique(r1[1..], r2[1..], field, desc);
    }
  }

  /** A stable sort of `notes` is `SortNotes` of them. */
  lemma SortNotesIsTheStableSort(field: SortField, direction: string, notes: seq<Note>, r: seq<Note>)
    requires Ordered(r, field, direction == "desc")
    requires forall k :: WithKey(r, field, k) == WithKey(notes, field, k)
    ensures r == SortNotes(field, direction, notes)
  {
    SortWithKey(notes, field, direction == "desc");
    SortUnique(r, Sort(notes, field, direction == "desc"), field, direction == "desc");
  }
}
