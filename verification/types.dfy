/** The records the client exchanges with its store and with the server
    (src/types/index.ts), and the small value helpers they rely on:
    timestamps and calendar days, the `YYYY-MM-DD` date keys compared as
    strings, and last-occurrence search. */
module Types {

  datatype Option<+T> = None | Some(value: T)

  function OrEmpty<T>(o: Option<seq<T>>): seq<T>
  {
    match o
    case Some(s) => s
    case None => []
  }

  // ---------------------------------------------------------------------
  // Time. An ISO-8601 UTC timestamp is modelled by its millisecond count
  // since the epoch, and its `YYYY-MM-DD` prefix by its UTC day number.

  const MsPerDay: int := 86400000

  /** The UTC calendar day an instant falls on (floor division). */
  function DayOf(ms: int): (d: int)
    ensures d * 86400000 <= ms < d * 86400000 + 86400000
  {
    ms / 86400000
  }

  /** A `YYYY-MM-DD` date string as kept in the UI state. `Blank` is the
      empty string the state starts with; it compares below every date,
      as '' does in JavaScript's string comparison. */
  datatype DateKey = Blank | Date(day: int)

  /** `a <= b` on date strings: lexicographic order on '' and zero-padded
      `YYYY-MM-DD` strings coincides with the order of the day numbers. */
  predicate DateLe(a: DateKey, b: DateKey)
  {
    match (a, b)
    case (Blank, _) => true
    case (Date(_), Blank) => false
    case (Date(x), Date(y)) => x <= y
  }

  lemma DateLeTransitive(a: DateKey, b: DateKey, c: DateKey)
    requires DateLe(a, b) && DateLe(b, c)
    ensures DateLe(a, c)
  {
  }

  // ---------------------------------------------------------------------
  // Records of src/types/index.ts

  /** A note; `uuid` is the key of the local store and of every merge. */
  datatype Note = Note(
    id: int,
    uuid: string,
    ctime: int,
    mtime: int,
    content: string,
    deletedAt: Option<int>)

  /** The `YYYY-MM-DD` prefix of a note's creation time. */
  function DateOf(n: Note): DateKey
  {
    Date(DayOf(n.ctime))
  }

  datatype SortField = CTime | MTime
  datatype SortDirection = Asc | Desc
  datatype SortOption = SortOption(field: SortField, direction: SortDirection)

  datatype DateRange = DateRange(startDate: DateKey, endDate: DateKey)

  /** `from_timestamp` and `to_timestamp` of a sync request, in milliseconds. */
  datatype SyncWindow = SyncWindow(fromMs: int, toMs: int)

  datatype SyncRequest = SyncRequest(window: SyncWindow, notes: seq<Note>)

  /** A sync response as decoded from JSON: every field may be missing,
      and an error-shaped response carries only `code` and `error`. */
  datatype SyncResponse = SyncResponse(
    code: Option<int>,
    error: Option<string>,
    fromTimestamp: Option<string>,
    toTimestamp: Option<string>,
    serverNewer: Option<seq<Note>>,
    onlyOnServer: Option<seq<Note>>)

  function Uuids(ns: seq<Note>): seq<string>
  {
    seq(|ns|, i requires 0 <= i < |ns| => ns[i].uuid)
  }

  /** The uuids of a concatenation are the concatenated uuids. */
  lemma UuidsAppend(a: seq<Note>, b: seq<Note>)
    ensures Uuids(a + b) == Uuids(a) + Uuids(b)
  {
  }

  // ---------------------------------------------------------------------
  // Last occurrence: both a dictionary built by repeated assignment and a
  // store filled by repeated upserts keep, per key, the last write.

  function LastIndex<T(==)>(s: seq<T>, x: T): (r: Option<nat>)
    ensures r.None? <==> x !in s
    ensures r.Some? ==> r.value < |s| && s[r.value] == x
    ensures r.Some? ==> forall j :: r.value < j < |s| ==> s[j] != x
    decreases |s|
  {
    if s == [] then None
    else if s[|s| - 1] == x then Some(|s| - 1)
    else LastIndex(s[..|s| - 1], x)
  }

  // ---------------------------------------------------------------------
  // String.prototype.trim: ECMAScript WhiteSpace and LineTerminator code
  // points are stripped from both ends.

  predicate IsJsWhitespace(c: char)
  {
    c in {'\t', '\n', '\U{000B}', '\U{000C}', '\r', ' ', '\U{00A0}', '\U{1680}',
          '\U{2000}', '\U{2001}', '\U{2002}', '\U{2003}', '\U{2004}', '\U{2005}',
          '\U{2006}', '\U{2007}', '\U{2008}', '\U{2009}', '\U{200A}',
          '\U{2028}', '\U{2029}', '\U{202F}', '\U{205F}', '\U{3000}', '\U{FEFF}'}
  }

  function TrimStart(s: string): (r: string)
    ensures |r| <= |s| && r == s[|s| - |r|..]
    ensures r != [] ==> !IsJsWhitespace(r[0])
    ensures forall i :: 0 <= i < |s| - |r| ==> IsJsWhitespace(s[i])
  {
    if s != [] && IsJsWhitespace(s[0]) then TrimStart(s[1..]) else s
  }

  function TrimEnd(s: string): (r: string)
    ensures |r| <= |s| && r == s[..|r|]
    ensures r != [] ==> !IsJsWhitespace(r[|r| - 1])
    ensures forall i :: |r| <= i < |s| ==> IsJsWhitespace(s[i])
  {
    if s != [] && IsJsWhitespace(s[|s| - 1]) then TrimEnd(s[..|s| - 1]) else s
  }

  function Trim(s: string): string
  {
    TrimEnd(TrimStart(s))
  }

  /** `s.trim()` is falsy exactly when every character of `s` is white space. */
  lemma TrimEmptyIff(s: string)
    ensures Trim(s) == "" <==> forall i :: 0 <= i < |s| ==> IsJsWhitespace(s[i])
  {
  }
}
