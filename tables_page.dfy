/**
 * The seating page (app/tables/page.tsx): the table registry and the
 * aggregate statistics it shows, and `handleTableAssignment`, the single
 * writer that applies one assignment delta `(oldTableId, newTableId)` to both
 * without re-fetching them. Ids are tested by truthiness, so `null` and `0`
 * both mean "no table".
 */
module TablesPage {
  import opened Wrappers
  import opened Numbers

  /** One table as `GET tables/summary` delivers it and the page keeps it. */
  datatype TableSummary = TableSummary(
    id: int,
    tableNumber: int,
    tableName: string,
    maxCapacity: int,
    currentOccupancy: int,
    availableSeats: int,
    percentageOccupied: Percentage,
    isFull: bool,
    isHonorTable: bool)

  /** The aggregate counters of `GET tables/stats`. */
  datatype TableStats = TableStats(
    totalGuests: int,
    assignedGuests: int,
    unassignedGuests: int,
    totalCapacity: int,
    totalOccupied: int,
    availableSeats: int,
    percentageAssigned: Percentage)

  /** The page state the handler updates: the table list and the (possibly not yet loaded) statistics. */
  datatype PageState = PageState(tables: seq<TableSummary>, stats: Option<TableStats>)

  /** The derived fields of a table agree with its occupancy and capacity. */
  predicate DerivedFieldsAgree(t: TableSummary) {
    && t.availableSeats == t.maxCapacity - t.currentOccupancy
    && t.isFull == (t.currentOccupancy >= t.maxCapacity)
    && t.percentageOccupied == PercentOf(t.currentOccupancy, t.maxCapacity)
  }

  /** The table invariant: `0 <= currentOccupancy <= maxCapacity`, with the derived fields in agreement. */
  predicate Consistent(t: TableSummary) {
    0 <= t.currentOccupancy <= t.maxCapacity && DerivedFieldsAgree(t)
  }

  predicate AllConsistent(ts: seq<TableSummary>) {
    forall i :: 0 <= i < |ts| ==> Consistent(ts[i])
  }

  /** `id && table.id === id`. */
  predicate Matches(t: TableSummary, id: Option<int>) {
    Truthy(id) && t.id == id.value
  }

  /** Only the occupancy and the fields derived from it differ between `r` and `t`. */
  predicate SameTable(r: TableSummary, t: TableSummary) {
    && r.id == t.id && r.tableNumber == t.tableNumber && r.tableName == t.tableName
    && r.maxCapacity == t.maxCapacity && r.isHonorTable == t.isHonorTable
  }

  /** `{ ...table, currentOccupancy, availableSeats, percentageOccupied, isFull }` for a new occupancy. */
  function WithOccupancy(t: TableSummary, occupancy: int): TableSummary {
    t.(currentOccupancy := occupancy,
       availableSeats := t.maxCapacity - occupancy,
       percentageOccupied := PercentOf(occupancy, t.maxCapacity),
       isFull := occupancy >= t.maxCapacity)
  }

  /**
   * The callback given to `prevTables.map`: the old table loses a guest
   * (floored at 0), otherwise the new table gains one (capped at capacity),
   * and any other table is returned as it is.
   */
  function UpdateTable(t: TableSummary, oldTableId: Option<int>, newTableId: Option<int>): (r: TableSummary)
    ensures SameTable(r, t)
    ensures !Matches(t, oldTableId) && !Matches(t, newTableId) ==> r == t
    ensures Matches(t, oldTableId) || Matches(t, newTableId) ==> DerivedFieldsAgree(r)
    ensures Matches(t, oldTableId) ==> r.currentOccupancy == (if t.currentOccupancy >= 1 then t.currentOccupancy - 1 else 0)
    ensures !Matches(t, oldTableId) && Matches(t, newTableId) ==>
      r.currentOccupancy == (if t.currentOccupancy < t.maxCapacity then t.currentOccupancy + 1 else t.maxCapacity)
  {
    if Matches(t, oldTableId) then WithOccupancy(t, Max(0, t.currentOccupancy - 1))
    else if Matches(t, newTableId) then WithOccupancy(t, Min(t.maxCapacity, t.currentOccupancy + 1))
    else t
  }

  /** `prevTables.map(...)`: every table updated in place, list length and order kept. */
  function UpdateTables(ts: seq<TableSummary>, oldTableId: Option<int>, newTableId: Option<int>): (r: seq<TableSummary>)
    ensures |r| == |ts|
    ensures forall i :: 0 <= i < |ts| ==> r[i] == UpdateTable(ts[i], oldTableId, newTableId)
  {
    if ts == [] then [] else [UpdateTable(ts[0], oldTableId, newTableId)] + UpdateTables(ts[1..], oldTableId, newTableId)
  }

  /**
   * The updater given to `setStats`: unassigned to assigned moves one guest
   * into the assigned count and one seat into the occupied count, assigned to
   * unassigned moves them back (clamped at 0), and any other transition leaves
   * the statistics as they are. Statistics not yet loaded stay absent.
   */
  function UpdateStats(prev: Option<TableStats>, oldTableId: Option<int>, newTableId: Option<int>): (r: Option<TableStats>)
    ensures r.Some? <==> prev.Some?
    ensures r.Some? ==> r.value.totalGuests == prev.value.totalGuests && r.value.totalCapacity == prev.value.totalCapacity
    ensures Truthy(oldTableId) == Truthy(newTableId) ==> r == prev
    ensures prev.Some? && !Truthy(oldTableId) && Truthy(newTableId) ==>
      && r.value.assignedGuests == prev.value.assignedGuests + 1
      && r.value.unassignedGuests == (if prev.value.unassignedGuests >= 1 then prev.value.unassignedGuests - 1 else 0)
      && r.value.totalOccupied == prev.value.totalOccupied + 1
      && r.value.availableSeats == prev.value.availableSeats - 1
      && r.value.percentageAssigned == PercentOf(r.value.assignedGuests, r.value.totalGuests)
    ensures prev.Some? && Truthy(oldTableId) && !Truthy(newTableId) ==>
      && r.value.assignedGuests == (if prev.value.assignedGuests >= 1 then prev.value.assignedGuests - 1 else 0)
      && r.value.unassignedGuests == prev.value.unassignedGuests + 1
      && r.value.totalOccupied == (if prev.value.totalOccupied >= 1 then prev.value.totalOccupied - 1 else 0)
      && r.value.availableSeats == prev.value.availableSeats + 1
      && r.value.percentageAssigned == PercentOf(prev.value.assignedGuests - 1, r.value.totalGuests)
  {
    match prev
    case None => None
    case Some(s) =>
      if !Truthy(oldTableId) && Truthy(newTableId) then
        Some(s.(assignedGuests := s.assignedGuests + 1,
                unassignedGuests := Max(0, s.unassignedGuests - 1),
                totalOccupied := s.totalOccupied + 1,
                availableSeats := s.availableSeats - 1,
                percentageAssigned := PercentOf(s.assignedGuests + 1, s.totalGuests)))
      else if Truthy(oldTableId) && !Truthy(newTableId) then
        Some(s.(assignedGuests := Max(0, s.assignedGuests - 1),
                unassignedGuests := s.unassignedGuests + 1,
                totalOccupied := Max(0, s.totalOccupied - 1),
                availableSeats := s.availableSeats + 1,
                percentageAssigned := PercentOf(s.assignedGuests - 1, s.totalGuests)))
      else
        Some(s)
  }

  /** `handleTableAssignment(oldTableId, newTableId)`: both state updates of one delta. */
  function HandleTableAssignment(state: PageState, oldTableId: Option<int>, newTableId: Option<int>): (r: PageState)
    ensures |r.tables| == |state.tables|
    ensures r.stats.Some? <==> state.stats.Some?
    ensures AllConsistent(state.tables) ==> AllConsistent(r.tables)
  {
    PreservesConsistency(state.tables, oldTableId, newTableId);
    PageState(UpdateTables(state.tables, oldTableId, newTableId), UpdateStats(state.stats, oldTableId, newTableId))
  }

  // ------------------------------------------------------------ per-table

  /** A table within capacity stays within capacity, with its derived fields recomputed. */
  lemma UpdateKeepsTableConsistent(t: TableSummary, oldTableId: Option<int>, newTableId: Option<int>)
    requires Consistent(t)
    ensures Consistent(UpdateTable(t, oldTableId, newTableId))
  {
  }

  lemma PreservesConsistency(ts: seq<TableSummary>, oldTableId: Option<int>, newTableId: Option<int>)
    ensures AllConsistent(ts) ==> AllConsistent(UpdateTables(ts, oldTableId, newTableId))
  {
    if AllConsistent(ts) {
      forall i | 0 <= i < |ts| ensures Consistent(UpdateTables(ts, oldTableId, newTableId)[i]) {
        UpdateKeepsTableConsistent(ts[i], oldTableId, newTableId);
      }
    }
  }

  /**
   * A duplicated delta never pushes a table out of `[0, maxCapacity]`: the
   * clamping absorbs the repetition.
   */
  lemma DuplicateDeltaStaysInBounds(state: PageState, oldTableId: Option<int>, newTableId: Option<int>)
    requires AllConsistent(state.tables)
    ensures AllConsistent(HandleTableAssignment(HandleTableAssignment(state, oldTableId, newTableId), oldTableId, newTableId).tables)
  {
  }

  /** When the old and the new id are the same table, the old-table branch wins: it is only decremented. */
  lemma SameTableOnlyDecremented(t: TableSummary, id: int)
    requires id != 0 && t.id == id && t.currentOccupancy >= 1
    ensures UpdateTable(t, Some(id), Some(id)).currentOccupancy == t.currentOccupancy - 1
  {
  }

  /** Assigning a guest to a table that has room and then unassigning it restores the table exactly. */
  lemma TableRoundTrip(t: TableSummary, id: int)
    requires Consistent(t) && t.currentOccupancy < t.maxCapacity && id != 0
    ensures UpdateTable(UpdateTable(t, None, Some(id)), Some(id), None) == t
  {
  }

  /**
   * The clamp is not invertible: on a full table the assignment is absorbed
   * by the cap, and the unassignment then frees a seat that was never taken.
   */
  lemma FullTableRoundTripLosesSeat(t: TableSummary, id: int)
    requires Consistent(t) && t.currentOccupancy == t.maxCapacity > 0 && t.id == id && id != 0
    ensures UpdateTable(UpdateTable(t, None, Some(id)), Some(id), None).currentOccupancy == t.maxCapacity - 1
  {
  }

  /** The list-level round trip: every table that can take the guest is restored, and so is the list. */
  lemma {:induction false} TablesRoundTrip(ts: seq<TableSummary>, id: int)
    requires id != 0
    requires forall i :: 0 <= i < |ts| && ts[i].id == id ==> Consistent(ts[i]) && ts[i].currentOccupancy < ts[i].maxCapacity
    ensures UpdateTables(UpdateTables(ts, None, Some(id)), Some(id), None) == ts
  {
    var once := UpdateTables(ts, None, Some(id));
    forall i | 0 <= i < |ts| ensures UpdateTable(once[i], Some(id), None) == ts[i] {
      if ts[i].id == id {
        TableRoundTrip(ts[i], id);
      }
    }
  }

  // ---------------------------------------------------------------- stats

  /** The counter balance of the statistics. */
  predicate Balanced(s: TableStats) {
    s.assignedGuests + s.unassignedGuests == s.totalGuests
  }

  /**
   * `assignedGuests + unassignedGuests == totalGuests` survives every delta
   * whose clamp does not fire: an assignment needs a guest to be unassigned,
   * an unassignment a guest to be assigned.
   */
  lemma StatsKeepBalance(s: TableStats, oldTableId: Option<int>, newTableId: Option<int>)
    requires Balanced(s)
    requires !Truthy(oldTableId) && Truthy(newTableId) ==> s.unassignedGuests >= 1
    requires Truthy(oldTableId) && !Truthy(newTableId) ==> s.assignedGuests >= 1
    ensures Balanced(UpdateStats(Some(s), oldTableId, newTableId).value)
  {
  }

  /**
   * Assigning an unassigned guest and unassigning it again restores the four
   * integer counters; the percentage comes back recomputed from the restored
   * assigned count.
   */
  lemma StatsRoundTrip(s: TableStats, id: int)
    requires id != 0 && s.assignedGuests >= 0 && s.unassignedGuests >= 1 && s.totalOccupied >= 0
    ensures UpdateStats(UpdateStats(Some(s), None, Some(id)), Some(id), None)
         == Some(s.(percentageAssigned := PercentOf(s.assignedGuests, s.totalGuests)))
  {
  }

  // ------------------------------------------------- occupancy in sync

  /** `Σ currentOccupancy` over the tables. */
  function SumOccupancy(ts: seq<TableSummary>): int {
    if ts == [] then 0 else ts[0].currentOccupancy + SumOccupancy(ts[1..])
  }

  /** How many tables carry the id `id`. */
  function CountId(ts: seq<TableSummary>, id: int): nat {
    if ts == [] then 0 else (if ts[0].id == id then 1 else 0) + CountId(ts[1..], id)
  }

  /** The table carrying `id` can take one more guest. */
  predicate HasRoom(ts: seq<TableSummary>, id: int) {
    forall i :: 0 <= i < |ts| && ts[i].id == id ==> ts[i].currentOccupancy < ts[i].maxCapacity
  }

  /** The table carrying `id` has a guest to lose. */
  predicate Occupied(ts: seq<TableSummary>, id: int) {
    forall i :: 0 <= i < |ts| && ts[i].id == id ==> ts[i].currentOccupancy >= 1
  }

  /** The statistics' occupied-seat total equals the sum of the tables' occupancies. */
  predicate InSync(state: PageState) {
    state.stats.Some? ==> state.stats.value.totalOccupied == SumOccupancy(state.tables)
  }

  lemma {:induction false} AbsentId(ts: seq<TableSummary>, id: int)
    requires CountId(ts, id) == 0
    ensures forall i :: 0 <= i < |ts| ==> ts[i].id != id
  {
    if ts != [] {
      AbsentId(ts[1..], id);
      assert forall i :: 1 <= i < |ts| ==> ts[i] == ts[1..][i - 1];
    }
  }

  lemma {:induction false} NonNegativeSum(ts: seq<TableSummary>)
    requires AllConsistent(ts)
    ensures SumOccupancy(ts) >= 0
  {
    if ts != [] {
      NonNegativeSum(ts[1..]);
    }
  }

  /** A delta naming no table of the list leaves the list as it is. */
  lemma {:induction false} UntouchedList(ts: seq<TableSummary>, oldTableId: Option<int>, newTableId: Option<int>)
    requires Truthy(oldTableId) ==> CountId(ts, oldTableId.value) == 0
    requires Truthy(newTableId) ==> CountId(ts, newTableId.value) == 0
    ensures UpdateTables(ts, oldTableId, newTableId) == ts
  {
    if Truthy(oldTableId) { AbsentId(ts, oldTableId.value); }
    if Truthy(newTableId) { AbsentId(ts, newTableId.value); }
  }

  /** Assigning to the one table with id `id`, which has room, adds exactly one to the occupancy sum. */
  lemma {:induction false} SumAfterAssign(ts: seq<TableSummary>, oldTableId: Option<int>, id: int)
    requires id != 0 && CountId(ts, id) == 1 && HasRoom(ts, id)
    requires Truthy(oldTableId) ==> CountId(ts, oldTableId.value) == 0
    ensures SumOccupancy(UpdateTables(ts, oldTableId, Some(id))) == SumOccupancy(ts) + 1
  {
    var r := UpdateTables(ts, oldTableId, Some(id));
    assert r[1..] == UpdateTables(ts[1..], oldTableId, Some(id));
    assert HasRoom(ts[1..], id) && ts[0].id == id ==> ts[0].currentOccupancy < ts[0].maxCapacity;
    if ts[0].id == id {
      UntouchedList(ts[1..], oldTableId, Some(id));
    } else {
      SumAfterAssign(ts[1..], oldTableId, id);
    }
  }

  /** Unassigning from the one table with id `id`, which is occupied, removes exactly one from the sum. */
  lemma {:induction false} SumAfterUnassign(ts: seq<TableSummary>, id: int, newTableId: Option<int>)
    requires id != 0 && CountId(ts, id) == 1 && Occupied(ts, id)
    requires Truthy(newTableId) ==> CountId(ts, newTableId.value) == 0
    ensures SumOccupancy(UpdateTables(ts, Some(id), newTableId)) == SumOccupancy(ts) - 1
  {
    var r := UpdateTables(ts, Some(id), newTableId);
    assert r[1..] == UpdateTables(ts[1..], Some(id), newTableId);
    if ts[0].id == id {
      UntouchedList(ts[1..], Some(id), newTableId);
    } else {
      SumAfterUnassign(ts[1..], id, newTableId);
    }
  }

  /** Moving a guest between two distinct tables keeps the occupancy sum. */
  lemma {:induction false} SumAfterMove(ts: seq<TableSummary>, from: int, to: int)
    requires from != 0 && to != 0 && from != to
    requires CountId(ts, from) == 1 && Occupied(ts, from)
    requires CountId(ts, to) == 1 && HasRoom(ts, to)
    ensures SumOccupancy(UpdateTables(ts, Some(from), Some(to))) == SumOccupancy(ts)
  {
    var r := UpdateTables(ts, Some(from), Some(to));
    assert r[1..] == UpdateTables(ts[1..], Some(from), Some(to));
    assert HasRoom(ts[1..], to) && Occupied(ts[1..], from);
    if ts[0].id == from {
      SumAfterAssign(ts[1..], Some(from), to);
    } else if ts[0].id == to {
      SumAfterUnassign(ts[1..], from, Some(to));
    } else {
      SumAfterMove(ts[1..], from, to);
    }
  }

  /** The delta names tables that exist once each and can absorb it without clamping. */
  predicate Feasible(ts: seq<TableSummary>, oldTableId: Option<int>, newTableId: Option<int>) {
    && (Truthy(oldTableId) ==> CountId(ts, oldTableId.value) == 1 && Occupied(ts, oldTableId.value))
    && (Truthy(newTableId) ==> CountId(ts, newTableId.value) == 1 && HasRoom(ts, newTableId.value))
    && (Truthy(oldTableId) && Truthy(newTableId) ==> oldTableId.value != newTableId.value)
  }

  /**
   * The incremental update keeps `totalOccupied == Σ currentOccupancy` for
   * every feasible delta, in all four transition cases.
   */
  lemma SyncPreserved(state: PageState, oldTableId: Option<int>, newTableId: Option<int>)
    requires AllConsistent(state.tables) && InSync(state)
    requires Feasible(state.tables, oldTableId, newTableId)
    ensures InSync(HandleTableAssignment(state, oldTableId, newTableId))
  {
    var ts := state.tables;
    if Truthy(oldTableId) && Truthy(newTableId) {
      SumAfterMove(ts, oldTableId.value, newTableId.value);
    } else if Truthy(oldTableId) {
      SumAfterUnassign(ts, oldTableId.value, newTableId);
      NonNegativeSum(UpdateTables(ts, oldTableId, newTableId));
    } else if Truthy(newTableId) {
      SumAfterAssign(ts, oldTableId, newTableId.value);
    } else {
      UntouchedList(ts, oldTableId, newTableId);
    }
  }

  /**
   * Where the delta is not feasible the counters drift: assigning to a table
   * that is already full leaves the occupancy sum as it was while the
   * statistics still count one more occupied seat.
   */
  lemma FullTargetDrifts(state: PageState, id: int)
    requires AllConsistent(state.tables) && InSync(state) && state.stats.Some?
    requires id != 0 && CountId(state.tables, id) == 1
    requires forall i :: 0 <= i < |state.tables| && state.tables[i].id == id ==> state.tables[i].isFull
    ensures var r := HandleTableAssignment(state, None, Some(id));
      SumOccupancy(r.tables) == SumOccupancy(state.tables)
      && r.stats.value.totalOccupied == SumOccupancy(state.tables) + 1
  {
    var ts := state.tables;
    assert UpdateTables(ts, None, Some(id)) == ts by {
      forall i | 0 <= i < |ts| ensures UpdateTable(ts[i], None, Some(id)) == ts[i] {
      }
    }
  }
}
