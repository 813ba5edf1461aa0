/** The history ledger: free-text search over four fields, a stable sort on
    one of four columns in either direction, the revenue totals shown in the
    header, the footer and the export, and the local delete with its
    one-row confirmation. */
module HistoryList {
  import opened Sessions
  import opened Text
  import opened Billing

  // ---------------------------------------------------------------------
  // Search

  /** `field?.toLowerCase().includes(term.toLowerCase())`: a missing field
      never matches. */
  predicate FieldMatches(field: Option<string>, term: string)
  {
    field.Some? && Contains(Lower(field.value), Lower(term))
  }

  /** The `||` of the four field matches; a session with none of the four
      fields never matches. */
  predicate MatchesSearch(s: Session, term: string)
    ensures MatchesSearch(s, term) ==> HasSearchableField(s)
  {
    || FieldMatches(s.owner_name, term)
    || FieldMatches(s.vehicle_name, term)
    || FieldMatches(s.plate_number, term)
    || FieldMatches(s.parking_slot, term)
  }

  /** `filteredHistory`: the sessions that match the search, in their
      original order, every copy of a matching session kept. */
  function FilteredHistory(history: seq<Session>, term: string): (r: seq<Session>)
    ensures IsSubsequence(r, history)
    ensures forall s :: multiset(r)[s] == if MatchesSearch(s, term) then multiset(history)[s] else 0
  {
    FilterFacts(history, s => MatchesSearch(s, term));
    Filter(history, s => MatchesSearch(s, term))
  }

  predicate HasSearchableField(s: Session)
  {
    s.owner_name.Some? || s.vehicle_name.Some? || s.plate_number.Some? || s.parking_slot.Some?
  }

  /** An empty search keeps every session that has at least one of the four
      searched fields, and drops a session that has none of them. */
  lemma EmptySearch(history: seq<Session>)
    ensures FilteredHistory(history, "") == Filter(history, HasSearchableField)
  {
    forall s | s in history ensures MatchesSearch(s, "") <==> HasSearchableField(s) {
      assert Lower("") == "";
      ContainsEmpty(if s.owner_name.Some? then Lower(s.owner_name.value) else "");
      ContainsEmpty(if s.vehicle_name.Some? then Lower(s.vehicle_name.value) else "");
      ContainsEmpty(if s.plate_number.Some? then Lower(s.plate_number.value) else "");
      ContainsEmpty(if s.parking_slot.Some? then Lower(s.parking_slot.value) else "");
    }
    FilterCongruent(history, s => MatchesSearch(s, ""), HasSearchableField);
  }

  /** A field matches exactly when the lower-cased term occurs at some
      position of the lower-cased field. */
  lemma FieldMatchesIff(field: Option<string>, term: string)
    ensures FieldMatches(field, term) <==>
      field.Some? && exists i :: OccursAt(Lower(field.value), Lower(term), i)
  {
    if field.Some? {
      ContainsIff(Lower(field.value), Lower(term));
    }
  }

  // ---------------------------------------------------------------------
  // Sort

  /** The `sortBy` select offers these four columns. */
  datatype SortField = ExitTime | EntryTime | OwnerName | VehicleName

  /** `sortOrder`: "asc", or anything else, which sorts descending. */
  datatype SortOrder = Asc | Desc

  /** The value `a[sortBy]` the comparator looks at. */
  datatype Key = Missing | Moment(ms: int) | Label(text: string)

  function KeyOf(s: Session, field: SortField): Key
  {
    match field
    case ExitTime => if s.exit_time.Some? then Moment(s.exit_time.value) else Missing
    case EntryTime => if s.entry_time.Some? then Moment(s.entry_time.value) else Missing
    case OwnerName => if s.owner_name.Some? then Label(s.owner_name.value) else Missing
    case VehicleName => if s.vehicle_name.Some? then Label(s.vehicle_name.value) else Missing
  }

  /** `a < b` on keys: times by value, text lexicographically; a missing
      key comes first. */
  predicate KeyLess(a: Key, b: Key)
  {
    match (a, b)
    case (Missing, Missing) => false
    case (Missing, _) => true
    case (_, Missing) => false
    case (Moment(x), Moment(y)) => x < y
    case (Moment(_), Label(_)) => true
    case (Label(_), Moment(_)) => false
    case (Label(x), Label(y)) => StrLess(x, y)
  }

  /** `KeyLess` is a strict total order. */
  lemma KeyLessOrder(a: Key, b: Key, c: Key)
    ensures !KeyLess(a, a)
    ensures KeyLess(a, b) && KeyLess(b, c) ==> KeyLess(a, c)
    ensures a != b ==> KeyLess(a, b) || KeyLess(b, a)
  {
    if a.Label? {
      StrLessIrreflexive(a.text);
      if b.Label? && c.Label? && KeyLess(a, b) && KeyLess(b, c) {
        StrLessTransitive(a.text, b.text, c.text);
      }
      if b.Label? && a != b {
        StrLessTotal(a.text, b.text);
      }
    }
  }

  /** The comparator passed to `sort`, as written for each direction. */
  function Compare(order: SortOrder, field: SortField, a: Session, b: Session): (r: int)
    ensures -1 <= r <= 1
  {
    var x, y := KeyOf(a, field), KeyOf(b, field);
    if order == Asc then
      (if KeyLess(x, y) then -1 else if KeyLess(y, x) then 1 else 0)
    else
      (if KeyLess(y, x) then -1 else if KeyLess(x, y) then 1 else 0)
  }

  /** `a` may stand before `b`: its key is not after `b`'s in the chosen direction. */
  predicate InOrder(order: SortOrder, field: SortField, a: Session, b: Session)
  {
    var x, y := KeyOf(a, field), KeyOf(b, field);
    if order == Asc then x == y || KeyLess(x, y) else x == y || KeyLess(y, x)
  }

  /** The comparator returns 0 exactly for equal keys, is antisymmetric, and
      its non-positive answers are the pairs already in order. */
  lemma CompareFacts(order: SortOrder, field: SortField, a: Session, b: Session)
    ensures Compare(order, field, a, b) == 0 <==> KeyOf(a, field) == KeyOf(b, field)
    ensures Compare(order, field, a, b) == -Compare(order, field, b, a)
    ensures Compare(order, field, a, b) <= 0 <==> InOrder(order, field, a, b)
  {
    var x, y := KeyOf(a, field), KeyOf(b, field);
    KeyLessOrder(x, y, x);
    KeyLessOrder(y, x, y);
  }

  lemma InOrderTransitive(order: SortOrder, field: SortField, a: Session, b: Session, c: Session)
    requires InOrder(order, field, a, b) && InOrder(order, field, b, c)
    ensures InOrder(order, field, a, c)
  {
    var x, y, z := KeyOf(a, field), KeyOf(b, field), KeyOf(c, field);
    KeyLessOrder(x, y, z);
    KeyLessOrder(z, y, x);
  }

  /** Neighbours are in order: keys non-decreasing for `Asc`, non-increasing for `Desc`. */
  predicate Sorted(r: seq<Session>, order: SortOrder, field: SortField)
  {
    forall i :: 0 < i < |r| ==> InOrder(order, field, r[i - 1], r[i])
  }

  /** Puts `x` before the first session it does not compare after. */
  function Insert(x: Session, t: seq<Session>, order: SortOrder, field: SortField): (r: seq<Session>)
    ensures |r| == |t| + 1 && (r[0] == x || (t != [] && r[0] == t[0]))
    ensures multiset(r) == multiset(t) + multiset{x}
  {
    if t == [] || Compare(order, field, x, t[0]) <= 0 then [x] + t
    else
      assert t == [t[0]] + t[1..];
      [t[0]] + Insert(x, t[1..], order, field)
  }

  lemma {:induction false} InsertSorted(x: Session, t: seq<Session>, order: SortOrder, field: SortField)
    requires Sorted(t, order, field)
    ensures Sorted(Insert(x, t, order, field), order, field)
  {
    var r := Insert(x, t, order, field);
    if t == [] {
    } else if Compare(order, field, x, t[0]) <= 0 {
      CompareFacts(order, field, x, t[0]);
      assert r == [x] + t;
    } else {
      CompareFacts(order, field, x, t[0]);
      CompareFacts(order, field, t[0], x);
      InsertSorted(x, t[1..], order, field);
      var rest := Insert(x, t[1..], order, field);
      assert r == [t[0]] + rest;
      assert InOrder(order, field, t[0], rest[0]);
      forall i | 0 < i < |r| ensures InOrder(order, field, r[i - 1], r[i]) {
        if i > 1 {
          assert r[i - 1] == rest[i - 2] && r[i] == rest[i - 1];
        }
      }
    }
  }

  /** `[...filteredHistory].sort(comparator)`: a stable sort of a copy; the
      input sequence is a value and is left as it was. */
  function SortSessions(s: seq<Session>, order: SortOrder, field: SortField): (r: seq<Session>)
    ensures multiset(r) == multiset(s)
    ensures Sorted(r, order, field)
  {
    if s == [] then [] else
      assert s == [s[0]] + s[1..];
      var rest := SortSessions(s[1..], order, field);
      InsertSorted(s[0], rest, order, field);
      Insert(s[0], rest, order, field)
  }

  /** `[x]` when `x` has sort key `k`, otherwise nothing. */
  function TieHead(x: Session, field: SortField, k: Key): seq<Session>
  {
    if KeyOf(x, field) == k then [x] else []
  }

  /** The sessions of `s` whose sort key is `k`, in order. */
  function Ties(s: seq<Session>, field: SortField, k: Key): seq<Session>
  {
    if s == [] then [] else TieHead(s[0], field, k) + Ties(s[1..], field, k)
  }

  lemma TiesCons(x: Session, t: seq<Session>, field: SortField, k: Key)
    ensures Ties([x] + t, field, k) == TieHead(x, field, k) + Ties(t, field, k)
  {
    assert ([x] + t)[1..] == t;
  }

  /** Two heads of which at least one is empty can be swapped. */
  lemma SwapHeads(a: seq<Session>, b: seq<Session>, u: seq<Session>)
    requires a == [] || b == []
    ensures a + (b + u) == b + (a + u)
  {
  }

  lemma {:induction false} InsertKeepsTies(x: Session, t: seq<Session>, order: SortOrder, field: SortField, k: Key)
    ensures Ties(Insert(x, t, order, field), field, k) == Ties([x] + t, field, k)
  {
    if t != [] && Compare(order, field, x, t[0]) > 0 {
      var t0, t' := t[0], t[1..];
      assert KeyOf(x, field) != KeyOf(t0, field) by {
        CompareFacts(order, field, x, t0);
      }
      var rest := Insert(x, t', order, field);
      assert Insert(x, t, order, field) == [t0] + rest;
      assert t == [t0] + t';
      InsertKeepsTies(x, t', order, field, k);
      TiesCons(t0, rest, field, k);
      TiesCons(x, t', field, k);
      TiesCons(x, t, field, k);
      TiesCons(t0, t', field, k);
      SwapHeads(TieHead(t0, field, k), TieHead(x, field, k), Ties(t', field, k));
    }
  }

  /** Stability: for every key, the sessions with that key come out in the
      order they went in. */
  lemma {:induction false} SortIsStable(s: seq<Session>, order: SortOrder, field: SortField, k: Key)
    ensures Ties(SortSessions(s, order, field), field, k) == Ties(s, field, k)
  {
    if s != [] {
      SortIsStable(s[1..], order, field, k);
      InsertKeepsTies(s[0], SortSessions(s[1..], order, field), order, field, k);
      TiesCons(s[0], SortSessions(s[1..], order, field), field, k);
      TiesCons(s[0], s[1..], field, k);
      assert s == [s[0]] + s[1..];
    }
  }

  // ---------------------------------------------------------------------
  // Ascending against descending

  function Reverse<T>(s: seq<T>): (r: seq<T>)
    ensures |r| == |s|
    ensures forall i :: 0 <= i < |s| ==> r[i] == s[|s| - 1 - i]
  {
    if s == [] then [] else Reverse(s[1..]) + [s[0]]
  }

  lemma {:induction false} ReverseMultiset<T>(s: seq<T>)
    ensures multiset(Reverse(s)) == multiset(s)
  {
    if s != [] {
      ReverseMultiset(s[1..]);
      assert s == [s[0]] + s[1..];
    }
  }

  /** No two different sessions of `s` share a sort key. */
  predicate DistinctKeys(s: seq<Session>, field: SortField)
  {
    forall a, b :: a in s && b in s && KeyOf(a, field) == KeyOf(b, field) ==> a == b
  }

  /** In a sorted sequence every earlier session may stand before every later one. */
  lemma {:induction false} SortedPairs(r: seq<Session>, order: SortOrder, field: SortField, i: int, j: int)
    requires Sorted(r, order, field) && 0 <= i < j < |r|
    ensures InOrder(order, field, r[i], r[j])
    decreases j - i
  {
    if i + 1 < j {
      SortedPairs(r, order, field, i + 1, j);
      InOrderTransitive(order, field, r[i], r[i + 1], r[j]);
    }
  }

  /** Reading an ascending sequence backwards gives a descending one. */
  lemma ReverseSorted(r: seq<Session>, field: SortField)
    requires Sorted(r, Asc, field)
    ensures Sorted(Reverse(r), Desc, field)
  {
    var rr := Reverse(r);
    forall i | 0 < i < |rr| ensures InOrder(Desc, field, rr[i - 1], rr[i]) {
      assert rr[i - 1] == r[|r| - i] && rr[i] == r[|r| - 1 - i];
      assert InOrder(Asc, field, r[|r| - 1 - i], r[|r| - i]);
    }
  }

  /** Two sorted arrangements of one multiset with distinct keys start alike. */
  lemma SortedHeads(a: seq<Session>, b: seq<Session>, order: SortOrder, field: SortField)
    requires a != [] && multiset(a) == multiset(b) && DistinctKeys(a, field)
    requires Sorted(a, order, field) && Sorted(b, order, field)
    ensures b != [] && a[0] == b[0]
  {
    assert a[0] in multiset(b);
    assert b != [] && b[0] in multiset(a);
    var k :| 0 <= k < |b| && b[k] == a[0];
    var m :| 0 <= m < |a| && a[m] == b[0];
    if m > 0 {
      SortedPairs(a, order, field, 0, m);
    }
    if k > 0 {
      SortedPairs(b, order, field, 0, k);
    }
    KeyLessOrder(KeyOf(a[0], field), KeyOf(b[0], field), KeyOf(a[0], field));
  }

  lemma SortedTail(r: seq<Session>, order: SortOrder, field: SortField)
    requires r != [] && Sorted(r, order, field)
    ensures Sorted(r[1..], order, field)
  {
    forall i | 0 < i < |r| - 1 ensures InOrder(order, field, r[1..][i - 1], r[1..][i]) {
      assert r[1..][i - 1] == r[i] && r[1..][i] == r[i + 1];
    }
  }

  lemma DistinctKeysTail(r: seq<Session>, field: SortField)
    requires r != [] && DistinctKeys(r, field)
    ensures DistinctKeys(r[1..], field)
  {
    forall x | x in r[1..] ensures x in r {
    }
  }

  lemma MultisetTails(a: seq<Session>, b: seq<Session>)
    requires a != [] && b != [] && a[0] == b[0] && multiset(a) == multiset(b)
    ensures multiset(a[1..]) == multiset(b[1..])
  {
    assert a == [a[0]] + a[1..] && b == [b[0]] + b[1..];
    assert multiset(a[1..]) == multiset(a) - multiset{a[0]};
    assert multiset(b[1..]) == multiset(b) - multiset{b[0]};
  }

  /** With distinct keys there is only one sorted arrangement of a multiset. */
  lemma {:induction false} SortedUnique(a: seq<Session>, b: seq<Session>, order: SortOrder, field: SortField)
    requires multiset(a) == multiset(b) && DistinctKeys(a, field)
    requires Sorted(a, order, field) && Sorted(b, order, field)
    ensures a == b
    decreases |a|
  {
    if a == [] {
      assert |b| == |multiset(b)| == 0;
    } else {
      SortedHeads(a, b, order, field);
      MultisetTails(a, b);
      DistinctKeysTail(a, field);
      SortedTail(a, order, field);
      SortedTail(b, order, field);
      SortedUnique(a[1..], b[1..], order, field);
      assert a == [a[0]] + a[1..] && b == [b[0]] + b[1..];
    }
  }

  /** When no two sessions share a key, the descending order is the
      ascending order read backwards. With shared keys it is not: the sort
      keeps tied sessions in their input order in both directions. */
  lemma DescendingIsReversedAscending(s: seq<Session>, field: SortField)
    requires DistinctKeys(s, field)
    ensures SortSessions(s, Desc, field) == Reverse(SortSessions(s, Asc, field))
  {
    var up := SortSessions(s, Asc, field);
    var down := SortSessions(s, Desc, field);
    ReverseSorted(up, field);
    ReverseMultiset(up);
    assert forall x :: x in down ==> x in s by {
      forall x | x in down ensures x in s {
        assert x in multiset(down);
      }
    }
    SortedUnique(down, Reverse(up), Desc, field);
  }

  /** `sortedHistory`. */
  function SortedHistory(history: seq<Session>, term: string, order: SortOrder, field: SortField): (r: seq<Session>)
    ensures multiset(r) == multiset(FilteredHistory(history, term))
    ensures Sorted(r, order, field)
  {
    SortSessions(FilteredHistory(history, term), order, field)
  }

  // ---------------------------------------------------------------------
  // Totals

  /** The export summary and the summary footer: the number of visible rows
      and the revenue summed over them. */
  function VisibleTotals(history: seq<Session>, term: string, order: SortOrder, field: SortField): (r: (int, int))
    ensures 0 <= r.0 <= |history|
    ensures 0 <= r.1 <= TotalRevenue(history)
  {
    var f := FilteredHistory(history, term);
    var rows := SortedHistory(history, term, order, field);
    assert |rows| == |multiset(rows)| == |multiset(f)| == |f|;
    TotalRevenuePermutation(rows, f);
    FilteredRevenueAtMostTotal(history, s => MatchesSearch(s, term));
    (|rows|, TotalRevenue(rows))
  }

  /** Sorting only reorders the filtered rows, so the totals are those of
      the filtered rows whatever the sort. */
  lemma VisibleTotalsOfFiltered(history: seq<Session>, term: string, order: SortOrder, field: SortField)
    ensures VisibleTotals(history, term, order, field) ==
      (|FilteredHistory(history, term)|, TotalRevenue(FilteredHistory(history, term)))
  {
    var f := FilteredHistory(history, term);
    var rows := SortSessions(f, order, field);
    assert |rows| == |multiset(rows)| == |multiset(f)| == |f|;
    TotalRevenuePermutation(rows, f);
  }

  /** The footer's filtered revenue never exceeds the header's total over the
      whole history. */
  lemma {:induction false} FilteredRevenueAtMostTotal(history: seq<Session>, p: Session -> bool)
    ensures TotalRevenue(Filter(history, p)) <= TotalRevenue(history)
  {
    if history != [] {
      FilteredRevenueAtMostTotal(history[1..], p);
      TotalRevenueConcat(if p(history[0]) then [history[0]] else [], Filter(history[1..], p));
    }
  }

  // ---------------------------------------------------------------------
  // Local delete

  /** `prev.filter(t => t.id !== id)`. */
  function RemoveId(history: seq<Session>, id: int): (r: seq<Session>)
    ensures forall s :: s in r ==> s.id != id
    ensures IsSubsequence(r, history)
    ensures forall s: Session :: s.id != id ==> multiset(r)[s] == multiset(history)[s]
  {
    FilterFacts(history, (s: Session) => s.id != id);
    Filter(history, (s: Session) => s.id != id)
  }

  /** Deleting and then searching shows what searching and then deleting shows. */
  lemma RemoveIdThenSearch(history: seq<Session>, id: int, term: string)
    ensures FilteredHistory(RemoveId(history, id), term) == RemoveId(FilteredHistory(history, term), id)
  {
    FilterCommutes(history, (s: Session) => s.id != id, s => MatchesSearch(s, term));
  }

  /** After a delete no visible row carries the deleted id. */
  lemma RemovedIdNotShown(history: seq<Session>, id: int, term: string, order: SortOrder, field: SortField)
    ensures forall s :: s in SortedHistory(RemoveId(history, id), term, order, field) ==> s.id != id
  {
    var f := FilteredHistory(RemoveId(history, id), term);
    forall s | s in SortSessions(f, order, field) ensures s.id != id {
      assert s in multiset(f);
    }
  }

  const LOAD_FAILED: string := "Failed to load transaction history"

  /** The ledger's state: the loaded history and the view controls. */
  class Ledger {
    var history: seq<Session>
    var searchTerm: string
    var sortBy: SortField
    var sortOrder: SortOrder
    var deletingId: Option<int>
    var deleteConfirm: Option<int>
    var error: Option<string>

    constructor ()
      ensures history == [] && searchTerm == "" && sortBy == ExitTime && sortOrder == Desc
      ensures deletingId == None && deleteConfirm == None && error == None
    {
      history, searchTerm, sortBy, sortOrder := [], "", ExitTime, Desc;
      deletingId, deleteConfirm, error := None, None, None;
    }

    /** The rows on screen. */
    function Rows(): seq<Session>
      reads this
    {
      SortedHistory(history, searchTerm, sortOrder, sortBy)
    }

    /** The row with this id shows the Yes/No confirmation. */
    predicate ShowsConfirmation(rowId: int)
      reads this
    {
      deleteConfirm == Some(rowId)
    }

    /** `loadHistory()`. `fetched` is the remote store's answer, `None` when
        the request fails: the list is then kept and the error is set. */
    method LoadHistory(fetched: Option<seq<Session>>)
      modifies this
      ensures history == if fetched.Some? then fetched.value else old(history)
      ensures error == if fetched.Some? then None else Some(LOAD_FAILED)
      ensures searchTerm == old(searchTerm) && sortBy == old(sortBy) && sortOrder == old(sortOrder)
      ensures deletingId == old(deletingId) && deleteConfirm == old(deleteConfirm)
    {
      error := None;
      if fetched.Some? {
        history := fetched.value;
      } else {
        error := Some(LOAD_FAILED);
      }
    }

    method SetSearchTerm(term: string)
      modifies this
      ensures searchTerm == term
      ensures history == old(history) && sortBy == old(sortBy) && sortOrder == old(sortOrder)
      ensures deletingId == old(deletingId) && deleteConfirm == old(deleteConfirm) && error == old(error)
    {
      searchTerm := term;
    }

    method SetSortBy(field: SortField)
      modifies this
      ensures sortBy == field
      ensures history == old(history) && searchTerm == old(searchTerm) && sortOrder == old(sortOrder)
      ensures deletingId == old(deletingId) && deleteConfirm == old(deleteConfirm) && error == old(error)
    {
      sortBy := field;
    }

    /** The direction button flips between ascending and descending. */
    method ToggleSortOrder()
      modifies this
      ensures sortOrder == (if old(sortOrder) == Asc then Desc else Asc)
      ensures history == old(history) && searchTerm == old(searchTerm) && sortBy == old(sortBy)
      ensures deletingId == old(deletingId) && deleteConfirm == old(deleteConfirm) && error == old(error)
    {
      sortOrder := if sortOrder == Asc then Desc else Asc;
    }

    /** The trash button arms the confirmation for one row, disarming any other. */
    method ArmDelete(rowId: int)
      modifies this
      ensures deleteConfirm == Some(rowId)
      ensures forall other :: ShowsConfirmation(other) <==> other == rowId
      ensures history == old(history) && searchTerm == old(searchTerm)
      ensures sortBy == old(sortBy) && sortOrder == old(sortOrder)
      ensures deletingId == old(deletingId) && error == old(error)
    {
      deleteConfirm := Some(rowId);
    }

    /** "No" disarms the confirmation and changes nothing else. */
    method CancelDelete()
      modifies this
      ensures deleteConfirm == None
      ensures forall other :: !ShowsConfirmation(other)
      ensures history == old(history) && searchTerm == old(searchTerm)
      ensures sortBy == old(sortBy) && sortOrder == old(sortOrder)
      ensures deletingId == old(deletingId) && error == old(error)
    {
      deleteConfirm := None;
    }

    /** "Yes": `handleDeleteLocal(id)`. The history loses every session with
        that id, the rest stay in order; the confirmation, the busy marker
        and the error are cleared. The detached remote delete is not part
        of this model. */
    method HandleDeleteLocal(id: int)
      modifies this
      ensures history == RemoveId(old(history), id)
      ensures forall s :: s in Rows() ==> s.id != id
      ensures deleteConfirm == None && deletingId == None && error == None
      ensures searchTerm == old(searchTerm) && sortBy == old(sortBy) && sortOrder == old(sortOrder)
    {
      deletingId := Some(id);
      error := None;
      history := RemoveId(history, id);
      deleteConfirm := None;
      deletingId := None;
      RemovedIdNotShown(old(history), id, searchTerm, sortOrder, sortBy);
    }
  }

  /** At most one row shows the confirmation at any time. */
  lemma AtMostOneArmed(ledger: Ledger, a: int, b: int)
    requires ledger.ShowsConfirmation(a) && ledger.ShowsConfirmation(b)
    ensures a == b
  {
  }
}
