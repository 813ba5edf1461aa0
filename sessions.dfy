/** The parking-session record every screen works on, and the sequence
    operations (`Array.prototype.filter`, counting) the screens derive their
    views with. */
module Sessions {

  datatype Option<T> = None | Some(value: T)

  /** One parking session as the remote store returns it. Every field but
      the id may be missing. A `None` time stands for every value JavaScript
      treats as false (missing, `null`, the empty string); a present time is
      the instant in milliseconds. */
  datatype Session = Session(
    id: int,
    owner_name: Option<string>,
    vehicle_name: Option<string>,
    vehicle_type: Option<string>,
    plate_number: Option<string>,
    parking_slot: Option<string>,
    entry_time: Option<int>,
    exit_time: Option<int>)

  /** A session is open (the vehicle is still parked) until it has an exit time. */
  predicate IsOpen(s: Session) { s.exit_time.None? }

  predicate IsCompleted(s: Session) { s.exit_time.Some? }

  // ---------------------------------------------------------------------
  // Array.prototype.filter

  function Filter<T(!new)>(s: seq<T>, p: T -> bool): (r: seq<T>)
    ensures |r| <= |s|
    ensures forall x :: x in r <==> x in s && p(x)
  {
    if s == [] then [] else (if p(s[0]) then [s[0]] else []) + Filter(s[1..], p)
  }

  /** `r` is `s` with some elements dropped and the rest kept in order. */
  predicate IsSubsequence<T(==)>(r: seq<T>, s: seq<T>)
  {
    if r == [] then true
    else if s == [] then false
    else if r[0] == s[0] then IsSubsequence(r[1..], s[1..])
    else IsSubsequence(r, s[1..])
  }

  lemma {:induction false} SubsequenceOfTail<T>(r: seq<T>, s: seq<T>)
    requires s != [] && IsSubsequence(r, s[1..])
    ensures IsSubsequence(r, s)
    decreases |r| + |s|
  {
    if r != [] && r[0] == s[0] {
      SubsequenceDropHead(r, s[1..]);
    }
  }

  lemma {:induction false} SubsequenceDropHead<T>(r: seq<T>, t: seq<T>)
    requires r != [] && IsSubsequence(r, t)
    ensures IsSubsequence(r[1..], t)
    decreases |r| + |t|
  {
    if r[0] == t[0] {
      SubsequenceOfTail(r[1..], t);
    } else {
      SubsequenceDropHead(r, t[1..]);
      SubsequenceOfTail(r[1..], t);
    }
  }

  /** A filter keeps the order of what it keeps, and it keeps every copy of
      an element that passes and no copy of one that fails. */
  lemma {:induction false} FilterFacts<T(!new)>(s: seq<T>, p: T -> bool)
    ensures IsSubsequence(Filter(s, p), s)
    ensures forall x :: multiset(Filter(s, p))[x] == if p(x) then multiset(s)[x] else 0
  {
    if s != [] {
      FilterFacts(s[1..], p);
      assert s == [s[0]] + s[1..];
      if p(s[0]) {
        assert Filter(s, p)[1..] == Filter(s[1..], p);
      } else {
        assert Filter(s, p) == Filter(s[1..], p);
        SubsequenceOfTail(Filter(s, p), s);
      }
    }
  }

  lemma {:induction false} FilterConcat<T(!new)>(a: seq<T>, b: seq<T>, p: T -> bool)
    ensures Filter(a + b, p) == Filter(a, p) + Filter(b, p)
  {
    if a == [] {
      assert a + b == b;
    } else {
      assert (a + b)[0] == a[0];
      assert (a + b)[1..] == a[1..] + b;
      FilterConcat(a[1..], b, p);
    }
  }

  /** Two filters applied one after the other can be applied in either order. */
  lemma {:induction false} FilterCommutes<T(!new)>(s: seq<T>, p: T -> bool, q: T -> bool)
    ensures Filter(Filter(s, p), q) == Filter(Filter(s, q), p)
  {
    if s != [] {
      FilterCommutes(s[1..], p, q);
      assert s == [s[0]] + s[1..];
      FilterConcat([s[0]], s[1..], p);
      FilterConcat([s[0]], s[1..], q);
      FilterConcat(if p(s[0]) then [s[0]] else [], Filter(s[1..], p), q);
      FilterConcat(if q(s[0]) then [s[0]] else [], Filter(s[1..], q), p);
    }
  }

  /** When every element passes exactly one of `p` and `q`, the two
      filters split the sequence. */
  lemma {:induction false} FilterPartition<T(!new)>(s: seq<T>, p: T -> bool, q: T -> bool)
    requires forall x :: q(x) <==> !p(x)
    ensures |Filter(s, p)| + |Filter(s, q)| == |s|
  {
    if s != [] {
      FilterPartition(s[1..], p, q);
    }
  }

  /** Two predicates that agree on every element of `s` filter it alike. */
  lemma {:induction false} FilterCongruent<T(!new)>(s: seq<T>, p: T -> bool, q: T -> bool)
    requires forall x :: x in s ==> (p(x) <==> q(x))
    ensures Filter(s, p) == Filter(s, q)
  {
    if s != [] {
      FilterCongruent(s[1..], p, q);
    }
  }

  /** Filtering by a predicate every element passes changes nothing. */
  lemma {:induction false} FilterAll<T(!new)>(s: seq<T>, p: T -> bool)
    requires forall x :: x in s ==> p(x)
    ensures Filter(s, p) == s
  {
    if s != [] {
      FilterAll(s[1..], p);
      assert s == [s[0]] + s[1..];
    }
  }

  /** The positions of `s` whose element passes `p`. */
  function Passing<T>(s: seq<T>, p: T -> bool): set<int>
  {
    set i | 0 <= i < |s| && p(s[i])
  }

  /** Appending one element adds its position exactly when it passes. */
  lemma PassingSnoc<T>(s: seq<T>, x: T, p: T -> bool)
    ensures Passing(s + [x], p) == if p(x) then Passing(s, p) + {|s|} else Passing(s, p)
  {
    var t := s + [x];
    forall i | 0 <= i < |s| ensures t[i] == s[i] {
    }
    assert t[|s|] == x;
  }

  /** The length of a filter result is the number of positions whose
      element passes: what a `.filter(...).length` count means. */
  lemma {:induction false} FilterCount<T(!new)>(s: seq<T>, p: T -> bool)
    ensures |Filter(s, p)| == |Passing(s, p)|
    decreases |s|
  {
    if s != [] {
      var n := |s| - 1;
      var init := s[..n];
      FilterCount(init, p);
      assert s == init + [s[n]];
      FilterConcat(init, [s[n]], p);
      assert [s[n]][1..] == [];
      PassingSnoc(init, s[n], p);
      assert n !in Passing(init, p);
    }
  }

  /** Removing the element at `k` removes one copy of it from the multiset. */
  lemma MultisetRemove<T>(b: seq<T>, k: int)
    requires 0 <= k < |b|
    ensures multiset(b[..k] + b[k + 1..]) == multiset(b) - multiset{b[k]}
  {
    assert b == b[..k] + [b[k]] + b[k + 1..];
    assert multiset(b) == multiset(b[..k]) + multiset{b[k]} + multiset(b[k + 1..]);
  }
}
