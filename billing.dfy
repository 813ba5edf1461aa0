/** Billing and duration arithmetic, shared by the history ledger and the
    active-session board (both carry an identical `calculateRevenue`). Times
    are milliseconds; a missing time is `None`. */
module Billing {
  import opened Sessions
  import opened Text

  const MS_PER_HOUR: int := 1000 * 60 * 60
  const MS_PER_MINUTE: int := 1000 * 60
  /** Currency units charged per started hour. */
  const RATE: int := 20

  /** `Math.ceil(d / 3600000)`: the number of started hours in `d` ms. */
  function BilledHours(d: int): (h: int)
    ensures (h - 1) * MS_PER_HOUR < d <= h * MS_PER_HOUR
  {
    -((-d) / MS_PER_HOUR)
  }

  /** `calculateRevenue(entryTime, exitTime)`. */
  function Revenue(entry: Option<int>, exit: Option<int>): (r: int)
    ensures r >= 0 && r % RATE == 0
    ensures entry.None? || exit.None? ==> r == 0
  {
    if entry.None? || exit.None? then 0
    else
      var charged := BilledHours(exit.value - entry.value) * RATE;
      if charged > 0 then charged else 0
  }

  function SessionRevenue(s: Session): (r: int)
    ensures r >= 0
  {
    Revenue(s.entry_time, s.exit_time)
  }

  /** The running total `reduce((total, t) => total + calculateRevenue(...), 0)`. */
  function TotalRevenue(ss: seq<Session>): (r: int)
    ensures r >= 0 && r % RATE == 0
  {
    if ss == [] then 0 else SessionRevenue(ss[0]) + TotalRevenue(ss[1..])
  }

  /** For an interval of `d` ms the charge is nothing when `d <= 0` and
      otherwise `RATE` for every started hour. */
  lemma RevenueOfInterval(entry: int, exit: int)
    ensures var d := exit - entry;
      Revenue(Some(entry), Some(exit)) ==
        if d <= 0 then 0 else RATE * ((d + MS_PER_HOUR - 1) / MS_PER_HOUR)
  {
    var d := exit - entry;
    if d > 0 {
      var k := (d + MS_PER_HOUR - 1) / MS_PER_HOUR;
      assert (k - 1) * MS_PER_HOUR < d <= k * MS_PER_HOUR;
    }
  }

  /** With the entry fixed, a later exit never costs less. */
  lemma RevenueMonotone(entry: int, exit1: int, exit2: int)
    requires exit1 <= exit2
    ensures Revenue(Some(entry), Some(exit1)) <= Revenue(Some(entry), Some(exit2))
  {
    var h1 := BilledHours(exit1 - entry);
    var h2 := BilledHours(exit2 - entry);
    assert (h1 - 1) * MS_PER_HOUR < h2 * MS_PER_HOUR;
  }

  /** A stay of exactly `k` hours costs `RATE * k`; any further part of an
      hour adds exactly one more `RATE`. */
  lemma RevenueOfWholeAndPartialHours(entry: int, k: nat, extra: int)
    requires 0 < extra < MS_PER_HOUR
    ensures Revenue(Some(entry), Some(entry + k * MS_PER_HOUR)) == RATE * k
    ensures Revenue(Some(entry), Some(entry + k * MS_PER_HOUR + extra)) == RATE * (k + 1)
  {
    var h := BilledHours(k * MS_PER_HOUR);
    assert (h - 1) * MS_PER_HOUR < k * MS_PER_HOUR <= h * MS_PER_HOUR;
    var h' := BilledHours(k * MS_PER_HOUR + extra);
    assert (h' - 1) * MS_PER_HOUR < k * MS_PER_HOUR + extra <= h' * MS_PER_HOUR;
  }

  lemma {:induction false} TotalRevenueConcat(a: seq<Session>, b: seq<Session>)
    ensures TotalRevenue(a + b) == TotalRevenue(a) + TotalRevenue(b)
  {
    if a == [] {
      assert a + b == b;
    } else {
      assert (a + b)[1..] == a[1..] + b;
      TotalRevenueConcat(a[1..], b);
    }
  }

  lemma TotalRevenueRemove(b: seq<Session>, k: int)
    requires 0 <= k < |b|
    ensures TotalRevenue(b) == SessionRevenue(b[k]) + TotalRevenue(b[..k] + b[k + 1..])
  {
    var pre, post := b[..k], b[k + 1..];
    var tail := [b[k]] + post;
    assert b == pre + tail;
    assert tail[1..] == post;
    assert TotalRevenue(tail) == SessionRevenue(b[k]) + TotalRevenue(post);
    TotalRevenueConcat(pre, tail);
    TotalRevenueConcat(pre, post);
  }

  /** The total does not depend on the order of the sessions. */
  lemma {:induction false} TotalRevenuePermutation(a: seq<Session>, b: seq<Session>)
    requires multiset(a) == multiset(b)
    ensures TotalRevenue(a) == TotalRevenue(b)
    decreases |a|
  {
    if a != [] {
      assert a[0] in multiset(b);
      var k :| 0 <= k < |b| && b[k] == a[0];
      var rest := b[..k] + b[k + 1..];
      MultisetRemove(b, k);
      assert a == [a[0]] + a[1..];
      assert multiset(a[1..]) == multiset(a) - multiset{a[0]};
      TotalRevenuePermutation(a[1..], rest);
      TotalRevenueRemove(b, k);
    }
  }

  /** Open sessions are charged nothing, so dropping them leaves the total alone. */
  lemma {:induction false} TotalRevenueOfCompleted(ss: seq<Session>)
    ensures TotalRevenue(Filter(ss, IsCompleted)) == TotalRevenue(ss)
  {
    if ss != [] {
      TotalRevenueOfCompleted(ss[1..]);
      TotalRevenueConcat(if IsCompleted(ss[0]) then [ss[0]] else [], Filter(ss[1..], IsCompleted));
    }
  }

  // ---------------------------------------------------------------------
  // calculateDuration

  /** What the duration column shows, before it is turned into text. */
  datatype Duration = NotAvailable | Invalid | Elapsed(hours: nat, minutes: nat)

  function DurationOf(entry: Option<int>, exit: Option<int>): (v: Duration)
    ensures v.NotAvailable? <==> entry.None? || exit.None?
    ensures v.Invalid? <==> entry.Some? && exit.Some? && exit.value < entry.value
    ensures v.Elapsed? ==>
      && entry.Some? && exit.Some?
      && v.minutes < 60
      && v.hours * MS_PER_HOUR + v.minutes * MS_PER_MINUTE <= exit.value - entry.value
      && exit.value - entry.value < v.hours * MS_PER_HOUR + (v.minutes + 1) * MS_PER_MINUTE
  {
    if entry.None? || exit.None? then NotAvailable
    else
      var d := exit.value - entry.value;
      if d < 0 then Invalid
      else Elapsed(d / MS_PER_HOUR, (d % MS_PER_HOUR) / MS_PER_MINUTE)
  }

  /** The text of a duration: "Hh Mm" when a whole hour has passed, "Mm" otherwise. */
  function Show(v: Duration): (r: string)
    ensures r != []
    ensures v.Elapsed? <==> r[|r| - 1] == 'm'
  {
    match v
    case NotAvailable => "N/A"
    case Invalid => "Invalid"
    case Elapsed(h, m) =>
      if h > 0 then NatToString(h) + "h " + NatToString(m) + "m" else NatToString(m) + "m"
  }

  /** `calculateDuration(entryTime, exitTime)`. */
  function CalculateDuration(entry: Option<int>, exit: Option<int>): (r: string)
    ensures ParseDuration(r) == Some(DurationOf(entry, exit))
  {
    ShowRoundTrip(DurationOf(entry, exit));
    Show(DurationOf(entry, exit))
  }

  /** Index of the first `c` in `s`, or `|s|` when there is none. */
  function IndexOf(s: string, c: char): (k: nat)
    ensures k <= |s|
    ensures forall i :: 0 <= i < k ==> s[i] != c
    ensures k < |s| ==> s[k] == c
  {
    if s == [] then 0 else if s[0] == c then 0 else 1 + IndexOf(s[1..], c)
  }

  /** Reads the text of a duration back; `None` for text `Show` never produces. */
  function ParseDuration(s: string): Option<Duration>
  {
    if s == "N/A" then Some(NotAvailable)
    else if s == "Invalid" then Some(Invalid)
    else if s == [] || s[|s| - 1] != 'm' then None
    else
      var body := s[..|s| - 1];
      var k := IndexOf(body, 'h');
      if k == |body| then Some(Elapsed(0, ParseNat(body)))
      else if k + 2 <= |body| then Some(Elapsed(ParseNat(body[..k]), ParseNat(body[k + 2..])))
      else None
  }

  /** The duration text is unambiguous: it can always be read back. */
  lemma ShowRoundTrip(v: Duration)
    ensures ParseDuration(Show(v)) == Some(v)
  {
    if v.Elapsed? {
      var s := Show(v);
      var hs, ms := NatToString(v.hours), NatToString(v.minutes);
      assert s[0] == (if v.hours > 0 then hs[0] else ms[0]);
      assert s != "N/A" && s != "Invalid";
      NatToStringRoundTrip(v.hours);
      NatToStringRoundTrip(v.minutes);
      var body := s[..|s| - 1];
      if v.hours > 0 {
        assert body == hs + "h " + ms;
        assert body[|hs|] == 'h';
        assert IndexOf(body, 'h') == |hs|;
        assert body[..|hs|] == hs;
        assert body[|hs| + 2..] == ms;
      } else {
        assert body == ms;
        assert IndexOf(body, 'h') == |body|;
      }
    }
  }

  /** The session used as the worked example: 08:00 to 10:30 shows as
      "2h 30m" and is charged for three hours. */
  lemma TwoAndAHalfHours(entry: int)
    ensures CalculateDuration(Some(entry), Some(entry + 9000000)) == "2h 30m"
    ensures Revenue(Some(entry), Some(entry + 9000000)) == 60
  {
    RevenueOfWholeAndPartialHours(entry, 2, 1800000);
    assert DurationOf(Some(entry), Some(entry + 9000000)) == Elapsed(2, 30);
    assert NatToString(2) == "2" && NatToString(30) == "30";
    assert Show(Elapsed(2, 30)) == "2h 30m";
  }
}
