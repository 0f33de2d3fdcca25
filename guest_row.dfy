/**
 * One row of the seating list (app/components/tables/Guestrow.tsx): the
 * table dropdown of a guest, the assignment it issues when the selection
 * changes, the in-place update of the guest record on success and its
 * rollback on failure, and the country badge.
 */
module GuestRow {
  import opened Wrappers
  import opened Numbers
  import opened Text

  /** One entry of `GET tables/available`. */
  datatype AvailableTable = AvailableTable(id: nat, tableName: string, availableSeats: int, display: string)

  /** One `<option>` of the table dropdown. */
  datatype SelectOption = SelectOption(value: string, caption: string, disabled: bool)

  /** The change handed to `onAssignmentChange(guestId, oldTableId, newTableId, newTableName)`. */
  datatype AssignmentDelta = AssignmentDelta(guestId: int, oldTableId: Option<nat>, newTableId: Option<nat>, newTableName: Option<string>)

  /** The guest record the row receives and mutates in place (`GuestAssignment`). */
  class Guest {
    const id: int
    var tableId: Option<nat>
    var tableName: Option<string>
    const country: string

    constructor (id: int, tableId: Option<nat>, tableName: Option<string>, country: string)
      ensures this.id == id && this.tableId == tableId && this.tableName == tableName && this.country == country
    {
      this.id := id;
      this.tableId := tableId;
      this.tableName := tableName;
      this.country := country;
    }
  }

  // --------------------------------------------------------------- lookups

  /** The index of the first table with id `id` (`availableTables.findIndex`), or -1. */
  function IndexOfTable(tables: seq<AvailableTable>, id: int): (k: int)
    ensures -1 <= k < |tables|
    ensures k >= 0 ==> tables[k].id == id && forall j :: 0 <= j < k ==> tables[j].id != id
    ensures k == -1 <==> forall j :: 0 <= j < |tables| ==> tables[j].id != id
  {
    if tables == [] then -1
    else if tables[0].id == id then 0
    else
      var k := IndexOfTable(tables[1..], id);
      assert forall j :: 1 <= j < |tables| ==> tables[j] == tables[1..][j - 1];
      if k == -1 then -1 else k + 1
  }

  /**
   * `newTableId ? availableTables.find(t => t.id === newTableId)?.tableName || null : null`:
   * the name of the first available table with that id, absent when the id
   * is falsy, when no available table has it, or when its name is empty.
   */
  function NewTableName(tables: seq<AvailableTable>, newTableId: Option<nat>): (r: Option<string>)
    ensures r.Some? <==> Truthy(newTableId) && IndexOfTable(tables, newTableId.value) >= 0
                         && tables[IndexOfTable(tables, newTableId.value)].tableName != ""
    ensures r.Some? ==> r.value == tables[IndexOfTable(tables, newTableId.value)].tableName
  {
    if !Truthy(newTableId) then None
    else
      var k := IndexOfTable(tables, newTableId.value);
      if k < 0 || tables[k].tableName == "" then None else Some(tables[k].tableName)
  }

  /** `tableId?.toString() || ''`: the select value that shows a table id (`0` prints as "0"). */
  function SelectValueOf(tableId: Option<nat>): (r: string)
    ensures r == "" <==> tableId.None?
    ensures r == "" || IsCanonicalDecimal(r)
  {
    match tableId
    case None => ""
    case Some(n) => NatToString(n)
  }

  /** A choice made in the dropdown is shown again by the value the row renders for the parsed id. */
  lemma SelectionRoundTrip(selectedValue: string)
    requires selectedValue == "" || IsCanonicalDecimal(selectedValue)
    ensures SelectValueOf(ParseOptionValue(selectedValue)) == selectedValue
  {
  }

  // ------------------------------------------------------------- dropdown

  /** The `<option>` of one available table: disabled when it has no seat left, unless it is the guest's own table. */
  function TableOption(t: AvailableTable, guestTableId: Option<nat>): SelectOption {
    SelectOption(NatToString(t.id), t.display, t.availableSeats <= 0 && guestTableId != Some(t.id))
  }

  /**
   * The options of the dropdown: "Sin asignar", then the guest's current
   * table marked "(Llena)" when it is assigned but no longer available, then
   * one option per available table.
   */
  function TableOptions(guestTableId: Option<nat>, guestTableName: Option<string>, tables: seq<AvailableTable>): (r: seq<SelectOption>)
    ensures |r| >= 1 && r[0] == SelectOption("", "Sin asignar", false)
    ensures forall k :: 0 <= k < |r| ==> r[k].value == "" || IsCanonicalDecimal(r[k].value)
    ensures Truthy(guestTableId) && IndexOfTable(tables, guestTableId.value) < 0 ==>
      |r| >= 2 && r[1] == SelectOption(NatToString(guestTableId.value), guestTableName.GetOr("") + " (Llena)", false)
    ensures |r| >= |tables| && forall i :: 0 <= i < |tables| ==> r[|r| - |tables| + i] == TableOption(tables[i], guestTableId)
  {
    var extra :=
      if Truthy(guestTableId) && IndexOfTable(tables, guestTableId.value) < 0
      then [SelectOption(NatToString(guestTableId.value), guestTableName.GetOr("") + " (Llena)", false)]
      else [];
    [SelectOption("", "Sin asignar", false)] + extra + seq(|tables|, i requires 0 <= i < |tables| => TableOption(tables[i], guestTableId))
  }

  /**
   * The guest's current table is always offered and never disabled, whether
   * or not it is still among the available tables.
   */
  lemma CurrentTableAlwaysSelectable(guestTableId: Option<nat>, guestTableName: Option<string>, tables: seq<AvailableTable>)
    requires Truthy(guestTableId)
    ensures var r := TableOptions(guestTableId, guestTableName, tables);
      exists k :: 1 <= k < |r| && r[k].value == SelectValueOf(guestTableId) && !r[k].disabled
  {
    var r := TableOptions(guestTableId, guestTableName, tables);
    var i := IndexOfTable(tables, guestTableId.value);
    if i < 0 {
      assert r[1].value == SelectValueOf(guestTableId) && !r[1].disabled;
    } else {
      assert r[1 + i] == TableOption(tables[i], guestTableId);
    }
  }

  /** The "(Llena)" option appears exactly when the guest sits at a table that is not available any more. */
  lemma FullOptionOnlyForMissingTable(guestTableId: Option<nat>, guestTableName: Option<string>, tables: seq<AvailableTable>)
    ensures |TableOptions(guestTableId, guestTableName, tables)| == 1 + |tables|
            + (if Truthy(guestTableId) && IndexOfTable(tables, guestTableId.value) < 0 then 1 else 0)
  {
  }

  /** An available table's option is disabled exactly when it is out of seats and not the guest's own table. */
  lemma AvailableOptionDisabled(guestTableId: Option<nat>, guestTableName: Option<string>, tables: seq<AvailableTable>, i: nat)
    requires i < |tables|
    ensures var r := TableOptions(guestTableId, guestTableName, tables);
      var k := |r| - |tables| + i;
      r[k].value == NatToString(tables[i].id)
      && (r[k].disabled <==> tables[i].availableSeats <= 0 && guestTableId != Some(tables[i].id))
  {
  }

  /** Choosing an option hands the handler exactly the id that option stands for. */
  lemma ChosenOptionParses(guestTableId: Option<nat>, guestTableName: Option<string>, tables: seq<AvailableTable>, i: nat)
    requires i < |tables|
    ensures var r := TableOptions(guestTableId, guestTableName, tables);
      ParseOptionValue(r[|r| - |tables| + i].value) == Some(tables[i].id)
  {
    ParseOfToString(tables[i].id);
  }

  // --------------------------------------------------------- country badge

  /** `getCountryBadgeColor(country)`: green for Mexico, blue for the United States, gray otherwise. */
  function CountryBadgeColor(country: string): (r: string)
    ensures var c := Lower(country);
      && (r == "bg-green-100 text-green-700" <==> Contains(c, "méxico") || Contains(c, "mexico"))
      && (r == "bg-blue-100 text-blue-700" <==>
            !(Contains(c, "méxico") || Contains(c, "mexico")) && (Contains(c, "estados unidos") || Contains(c, "usa")))
      && (r == "bg-gray-100 text-gray-700" <==>
            !(Contains(c, "méxico") || Contains(c, "mexico") || Contains(c, "estados unidos") || Contains(c, "usa")))
  {
    var c := Lower(country);
    if Contains(c, "méxico") || Contains(c, "mexico") then "bg-green-100 text-green-700"
    else if Contains(c, "estados unidos") || Contains(c, "usa") then "bg-blue-100 text-blue-700"
    else "bg-gray-100 text-gray-700"
  }

  /** The badge ignores case: a country written in capitals gets the same colour. */
  lemma BadgeIgnoresCase(country: string)
    ensures CountryBadgeColor(Lower(country)) == CountryBadgeColor(country)
  {
    LowerIdempotent(country);
  }

  // ------------------------------------------------------------------ row

  /** What the row remembers while the request is in flight. */
  datatype PendingChange = PendingChange(oldTableId: Option<nat>, oldTableName: Option<string>,
                                         newTableId: Option<nat>, newTableName: Option<string>)

  /**
   * The row component: its `isAssigning` and `error` state, the DOM value of
   * its select, and the change in flight between issuing the request and its
   * settlement (the `await` of `handleTableChange`).
   */
  class Row {
    const guest: Guest
    const availableTables: seq<AvailableTable>
    var isAssigning: bool
    var error: Option<string>
    var selectValue: string
    var pending: Option<PendingChange>

    constructor (guest: Guest, availableTables: seq<AvailableTable>)
      ensures this.guest == guest && this.availableTables == availableTables
      ensures !isAssigning && error == None && pending == None
      ensures selectValue == SelectValueOf(guest.tableId)
    {
      this.guest := guest;
      this.availableTables := availableTables;
      isAssigning := false;
      error := None;
      selectValue := SelectValueOf(guest.tableId);
      pending := None;
    }

    /** The select is disabled while a request is in flight. */
    predicate SelectDisabled()
      reads this
    {
      isAssigning
    }

    /**
     * First half of `handleTableChange`, up to the `await`: capture the old
     * table, mark the row busy, clear the error, and issue the request for
     * the selected table. The guest record is not touched yet.
     */
    method BeginTableChange(selectedValue: string) returns (requestTableId: Option<nat>)
      requires !isAssigning
      requires selectedValue == "" || IsCanonicalDecimal(selectedValue)
      modifies this
      ensures isAssigning && error == None && selectValue == selectedValue
      ensures requestTableId == ParseOptionValue(selectedValue)
      ensures pending == Some(PendingChange(guest.tableId, guest.tableName, requestTableId,
                                            NewTableName(availableTables, requestTableId)))
      ensures unchanged(guest)
    {
      var oldTableId := guest.tableId;
      var oldTableName := guest.tableName;
      selectValue := selectedValue;
      isAssigning := true;
      error := None;
      requestTableId := ParseOptionValue(selectedValue);
      var newTableName := NewTableName(availableTables, requestTableId);
      pending := Some(PendingChange(oldTableId, oldTableName, requestTableId, newTableName));
    }

    /**
     * Second half: on success write the new table into the guest record and
     * report the delta; on failure record the message, reset the select to the
     * old table and restore the guest record. The row is released either way.
     */
    method SettleTableChange(outcome: Settled<()>) returns (notified: Option<AssignmentDelta>)
      requires pending.Some?
      modifies this, guest
      ensures !isAssigning && pending == None
      ensures var p := old(pending.value);
        if outcome.Resolved? then
          && guest.tableId == p.newTableId && guest.tableName == p.newTableName
          && notified == Some(AssignmentDelta(guest.id, p.oldTableId, p.newTableId, p.newTableName))
          && error == old(error) && selectValue == old(selectValue)
        else
          && guest.tableId == p.oldTableId && guest.tableName == p.oldTableName
          && notified == None
          && error == Some(outcome.reason.MessageOr("Error al asignar mesa"))
          && selectValue == SelectValueOf(p.oldTableId)
    {
      var p := pending.value;
      if outcome.Resolved? {
        guest.tableId := p.newTableId;
        guest.tableName := p.newTableName;
        notified := Some(AssignmentDelta(guest.id, p.oldTableId, p.newTableId, p.newTableName));
      } else {
        error := Some(outcome.reason.MessageOr("Error al asignar mesa"));
        selectValue := SelectValueOf(p.oldTableId);
        guest.tableId := p.oldTableId;
        guest.tableName := p.oldTableName;
        notified := None;
      }
      isAssigning := false;
      pending := None;
    }

    /**
     * The whole handler. On success the guest sits at the chosen table and
     * the select keeps showing it; on failure guest and select are as they
     * were before the change.
     */
    method HandleTableChange(selectedValue: string, outcome: Settled<()>) returns (requestTableId: Option<nat>, notified: Option<AssignmentDelta>)
      requires !isAssigning
      requires selectedValue == "" || IsCanonicalDecimal(selectedValue)
      modifies this, guest
      ensures !isAssigning && pending == None
      ensures requestTableId == ParseOptionValue(selectedValue)
      ensures outcome.Resolved? ==>
        && guest.tableId == requestTableId
        && guest.tableName == NewTableName(availableTables, requestTableId)
        && notified == Some(AssignmentDelta(guest.id, old(guest.tableId), requestTableId, guest.tableName))
        && error == None
        && selectValue == selectedValue == SelectValueOf(guest.tableId)
      ensures outcome.Rejected? ==>
        && guest.tableId == old(guest.tableId) && guest.tableName == old(guest.tableName)
        && notified == None && error == Some(outcome.reason.MessageOr("Error al asignar mesa"))
        && selectValue == SelectValueOf(old(guest.tableId))
    {
      requestTableId := BeginTableChange(selectedValue);
      notified := SettleTableChange(outcome);
      SelectionRoundTrip(selectedValue);
    }
  }
}
