/** The active-session board: status tabs combined with the search, the
    open/completed counts, per-vehicle-type counts, the completed-revenue
    total, and the time-out modal. */
module TransactionList {
  import opened Sessions
  import opened Text
  import opened Billing
  import HistoryList

  /** `calculateTotalRevenue()`: revenue summed over the completed sessions.
      Open sessions are charged nothing, so this is also the revenue of all
      sessions. */
  function CalculateTotalRevenue(transactions: seq<Session>): (r: int)
    ensures r == TotalRevenue(transactions)
  {
    TotalRevenueOfCompleted(transactions);
    TotalRevenue(Filter(transactions, IsCompleted))
  }

  // ---------------------------------------------------------------------
  // Filter tabs and search

  /** `activeFilter`: "all", "active", or anything else, which keeps the
      completed sessions. */
  datatype StatusFilter = All | Active | Completed

  predicate StatusMatches(s: Session, filter: StatusFilter)
  {
    match filter
    case All => true
    case Active => IsOpen(s)
    case Completed => IsCompleted(s)
  }

  /** `matchesSearch` for one session. Owner, vehicle and plate are read
      without `?.`, so reaching a missing one throws (`None`); the `||`
      chain stops at the first field that matches. A missing slot never
      matches. */
  function SearchOutcome(s: Session, term: string): (r: Option<bool>)
    ensures r.None? ==> !Searchable(s)
    ensures r.Some? ==> r.value == HistoryList.MatchesSearch(s, term)
  {
    var t := Lower(term);
    if s.owner_name.None? then None
    else if Contains(Lower(s.owner_name.value), t) then Some(true)
    else if s.vehicle_name.None? then None
    else if Contains(Lower(s.vehicle_name.value), t) then Some(true)
    else if s.plate_number.None? then None
    else if Contains(Lower(s.plate_number.value), t) then Some(true)
    else Some(s.parking_slot.Some? && Contains(Lower(s.parking_slot.value), t))
  }

  /** The three fields the board's search reads without a guard. */
  predicate Searchable(s: Session)
  {
    s.owner_name.Some? && s.vehicle_name.Some? && s.plate_number.Some?
  }

  /** On a session whose guarded fields are present the board searches
      exactly as the history ledger does. */
  lemma SearchAgreesWithHistory(s: Session, term: string)
    requires Searchable(s)
    ensures SearchOutcome(s, term) == Some(HistoryList.MatchesSearch(s, term))
  {
  }

  predicate Kept(s: Session, filter: StatusFilter, term: string)
  {
    StatusMatches(s, filter) && SearchOutcome(s, term) == Some(true)
  }

  /** `filteredTransactions`: `None` when rendering throws, which happens
      exactly when some session cannot be searched; otherwise the sessions
      that pass both the tab and the search, in order. */
  function FilteredTransactions(transactions: seq<Session>, filter: StatusFilter, term: string): (r: Option<seq<Session>>)
    ensures r.Some? <==> forall s :: s in transactions ==> SearchOutcome(s, term).Some?
    ensures r.Some? ==> r.value == Filter(transactions, s => Kept(s, filter, term))
  {
    if transactions == [] then Some([])
    else
      var head := transactions[0];
      var rest := FilteredTransactions(transactions[1..], filter, term);
      if SearchOutcome(head, term).None? || rest.None? then
        assert head in transactions;
        assert forall s :: s in transactions[1..] ==> s in transactions;
        None
      else
        assert forall s :: s in transactions ==> s == head || s in transactions[1..];
        Some((if Kept(head, filter, term) then [head] else []) + rest.value)
  }

  /** Whenever the board renders, what it shows is an order-preserving
      subsequence holding every copy of each session that passes the tab and
      the search, and no copy of any other. */
  lemma FilteredTransactionsFacts(transactions: seq<Session>, filter: StatusFilter, term: string)
    requires FilteredTransactions(transactions, filter, term).Some?
    ensures var r := FilteredTransactions(transactions, filter, term).value;
      && IsSubsequence(r, transactions)
      && forall s :: multiset(r)[s] == if Kept(s, filter, term) then multiset(transactions)[s] else 0
  {
    FilterFacts(transactions, s => Kept(s, filter, term));
  }

  /** Counts shown on the stat cards and the tabs: the number of open
      (completed) sessions. */
  function ActiveCount(transactions: seq<Session>): (n: nat)
    ensures n == |set i | 0 <= i < |transactions| && IsOpen(transactions[i])|
  {
    FilterCount(transactions, IsOpen);
    assert Passing(transactions, IsOpen) == set i | 0 <= i < |transactions| && IsOpen(transactions[i]);
    |Filter(transactions, IsOpen)|
  }

  function CompletedCount(transactions: seq<Session>): (n: nat)
    ensures n == |set i | 0 <= i < |transactions| && IsCompleted(transactions[i])|
  {
    FilterCount(transactions, IsCompleted);
    assert Passing(transactions, IsCompleted) == set i | 0 <= i < |transactions| && IsCompleted(transactions[i]);
    |Filter(transactions, IsCompleted)|
  }

  /** Every session is counted exactly once, as active or as completed. */
  lemma CountsPartition(transactions: seq<Session>)
    ensures ActiveCount(transactions) + CompletedCount(transactions) == |transactions|
  {
    FilterPartition(transactions, IsOpen, IsCompleted);
  }

  /** With an empty search only the owner is read, and it matches; so each
      tab shows exactly the sessions its badge counts. */
  lemma EmptySearchTabs(transactions: seq<Session>)
    requires forall s :: s in transactions ==> s.owner_name.Some?
    ensures FilteredTransactions(transactions, All, "") == Some(transactions)
    ensures FilteredTransactions(transactions, Active, "") == Some(Filter(transactions, IsOpen))
    ensures FilteredTransactions(transactions, Completed, "") == Some(Filter(transactions, IsCompleted))
    ensures |FilteredTransactions(transactions, Active, "").value| == ActiveCount(transactions)
    ensures |FilteredTransactions(transactions, Completed, "").value| == CompletedCount(transactions)
  {
    forall s | s in transactions ensures SearchOutcome(s, "") == Some(true) {
      assert Lower("") == "";
      ContainsEmpty(Lower(s.owner_name.value));
    }
    FilterAll(transactions, s => Kept(s, All, ""));
    FilterCongruent(transactions, s => Kept(s, Active, ""), IsOpen);
    FilterCongruent(transactions, s => Kept(s, Completed, ""), IsCompleted);
  }

  /** `getVehicleTypeCount(type)`: the number of sessions of that type. */
  function VehicleTypeCount(transactions: seq<Session>, vehicleType: string): (n: nat)
    ensures n == |set i | 0 <= i < |transactions| && transactions[i].vehicle_type == Some(vehicleType)|
  {
    var ofType := (s: Session) => s.vehicle_type == Some(vehicleType);
    FilterCount(transactions, ofType);
    assert Passing(transactions, ofType) == set i | 0 <= i < |transactions| && transactions[i].vehicle_type == Some(vehicleType);
    |Filter(transactions, ofType)|
  }

  predicate IsBikeOrEBike(s: Session)
  {
    s.vehicle_type == Some("bike") || s.vehicle_type == Some("e-bike")
  }

  /** The Bikes card adds the two counts; since no session is of both types
      that is the number of sessions that are either. */
  lemma {:induction false} BikesCard(transactions: seq<Session>)
    ensures VehicleTypeCount(transactions, "bike") + VehicleTypeCount(transactions, "e-bike")
         == |Filter(transactions, IsBikeOrEBike)|
  {
    if transactions != [] {
      BikesCard(transactions[1..]);
      assert "bike" != "e-bike";
    }
  }

  // ---------------------------------------------------------------------
  // Time-out modal

  /** The board's state: the loaded sessions, the view controls and the
      time-out modal (`isOpen`, `selected`, `exitTime`). */
  class Board {
    var transactions: seq<Session>
    var activeFilter: StatusFilter
    var searchTerm: string
    var isOpen: bool
    var selected: Option<Session>
    var exitTime: Option<int>

    /** The modal is either closed or open on one selected session. */
    predicate Valid()
      reads this
    {
      isOpen ==> selected.Some?
    }

    constructor ()
      ensures Valid()
      ensures transactions == [] && activeFilter == All && searchTerm == ""
      ensures !isOpen && selected == None && exitTime == None
    {
      transactions, activeFilter, searchTerm := [], All, "";
      isOpen, selected, exitTime := false, None, None;
    }

    /** `loadTransactions()`. `fetched` is the remote store's answer, `None`
        when the request fails, which keeps the list. */
    method LoadTransactions(fetched: Option<seq<Session>>)
      modifies this
      requires Valid()
      ensures Valid()
      ensures transactions == if fetched.Some? then fetched.value else old(transactions)
      ensures activeFilter == old(activeFilter) && searchTerm == old(searchTerm)
      ensures isOpen == old(isOpen) && selected == old(selected) && exitTime == old(exitTime)
    {
      if fetched.Some? {
        transactions := fetched.value;
      }
    }

    method SetActiveFilter(filter: StatusFilter)
      modifies this
      requires Valid()
      ensures Valid()
      ensures activeFilter == filter
      ensures transactions == old(transactions) && searchTerm == old(searchTerm)
      ensures isOpen == old(isOpen) && selected == old(selected) && exitTime == old(exitTime)
    {
      activeFilter := filter;
    }

    method SetSearchTerm(term: string)
      modifies this
      requires Valid()
      ensures Valid()
      ensures searchTerm == term
      ensures transactions == old(transactions) && activeFilter == old(activeFilter)
      ensures isOpen == old(isOpen) && selected == old(selected) && exitTime == old(exitTime)
    {
      searchTerm := term;
    }

    /** `openModal(tx)`: the modal opens on a copy of `tx`, its exit-time
        field pre-filled with the session's exit time, if any. */
    method OpenModal(tx: Session)
      modifies this
      requires Valid()
      ensures Valid()
      ensures isOpen && selected == Some(tx) && exitTime == tx.exit_time
      ensures transactions == old(transactions)
      ensures activeFilter == old(activeFilter) && searchTerm == old(searchTerm)
    {
      selected := Some(tx);
      exitTime := tx.exit_time;
      isOpen := true;
    }

    /** Typing in the exit-time field. */
    method EditExitTime(value: Option<int>)
      modifies this
      requires Valid()
      ensures Valid()
      ensures exitTime == value
      ensures isOpen == old(isOpen) && selected == old(selected) && transactions == old(transactions)
      ensures activeFilter == old(activeFilter) && searchTerm == old(searchTerm)
    {
      exitTime := value;
    }

    /** Cancel only closes the modal; nothing is sent. */
    method CancelModal()
      modifies this
      requires Valid()
      ensures Valid()
      ensures !isOpen
      ensures selected == old(selected) && exitTime == old(exitTime) && transactions == old(transactions)
      ensures activeFilter == old(activeFilter) && searchTerm == old(searchTerm)
    {
      isOpen := false;
    }

    /** `handleUpdate()`. `updateSucceeds` is the remote store's answer to
        the update and `reloaded` the answer to the list request made after
        a successful update (`None` when that request fails). `sent` is the
        body of the update request, `None` when none is made. */
    method HandleUpdate(updateSucceeds: bool, reloaded: Option<seq<Session>>) returns (sent: Option<Session>)
      modifies this
      requires Valid()
      ensures Valid()
      ensures old(selected).None? ==> sent.None?
      ensures old(selected).Some? ==> sent.Some?
      ensures sent.Some? ==>
        var before := old(selected).value;
        && sent.value.exit_time == old(exitTime)
        && sent.value.id == before.id
        && sent.value.owner_name == before.owner_name
        && sent.value.vehicle_name == before.vehicle_name
        && sent.value.vehicle_type == before.vehicle_type
        && sent.value.plate_number == before.plate_number
        && sent.value.parking_slot == before.parking_slot
        && sent.value.entry_time == before.entry_time
      ensures isOpen == (old(isOpen) && !(sent.Some? && updateSucceeds))
      ensures transactions ==
        if sent.Some? && updateSucceeds && reloaded.Some? then reloaded.value else old(transactions)
      ensures selected == old(selected) && exitTime == old(exitTime)
      ensures activeFilter == old(activeFilter) && searchTerm == old(searchTerm)
    {
      if selected.None? {
        return None;
      }
      sent := Some(selected.value.(exit_time := exitTime));
      if updateSucceeds {
        isOpen := false;
        if reloaded.Some? {
          transactions := reloaded.value;
        }
      }
    }
  }
}
