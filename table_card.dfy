/**
 * The card of one table (app/components/tables/TableCard.tsx): the colour of
 * the card, of its occupancy badge and of its progress bar, chosen by
 * thresholds on the occupancy percentage, the width of the bar, and the
 * labels under it.
 */
module TableCard {
  import opened Wrappers
  import opened Numbers
  import opened Text
  import opened TablesPage

  /** The colour families the card chooses between; `Empty` is the gray of an unoccupied table. */
  datatype Bucket = Empty | Red | Orange | Yellow | Green

  /** The first threshold `percentage` reaches: 100 red, 80 orange, 50 yellow, green below (and for NaN). */
  function PercentBucket(p: Percentage): (b: Bucket)
    ensures b != Empty
    ensures b == Red <==> AtLeast(p, 100.0)
    ensures b == Orange <==> !AtLeast(p, 100.0) && AtLeast(p, 80.0)
    ensures b == Yellow <==> !AtLeast(p, 80.0) && AtLeast(p, 50.0)
    ensures b == Green <==> !AtLeast(p, 50.0)
  {
    if AtLeast(p, 100.0) then Red
    else if AtLeast(p, 80.0) then Orange
    else if AtLeast(p, 50.0) then Yellow
    else Green
  }

  /** The bucket of the card and of its badge: gray when nobody sits there, whatever the percentage says. */
  function CardBucket(t: TableSummary): (b: Bucket)
    ensures b == Empty <==> t.currentOccupancy == 0
    ensures t.currentOccupancy != 0 ==> b == PercentBucket(t.percentageOccupied)
  {
    if t.currentOccupancy == 0 then Empty else PercentBucket(t.percentageOccupied)
  }

  function CardPalette(b: Bucket): string {
    match b
    case Empty => "bg-gray-50 border-gray-300 text-gray-700"
    case Red => "bg-red-50 border-red-400 text-red-900"
    case Orange => "bg-orange-50 border-orange-400 text-orange-900"
    case Yellow => "bg-yellow-50 border-yellow-400 text-yellow-900"
    case Green => "bg-green-50 border-green-400 text-green-900"
  }

  function BadgePalette(b: Bucket): string {
    match b
    case Empty => "bg-gray-200 text-gray-700"
    case Red => "bg-red-200 text-red-800"
    case Orange => "bg-orange-200 text-orange-800"
    case Yellow => "bg-yellow-200 text-yellow-800"
    case Green => "bg-green-200 text-green-800"
  }

  function BarPalette(b: Bucket): string {
    match b
    case Empty => "bg-gray-500"
    case Red => "bg-red-500"
    case Orange => "bg-orange-500"
    case Yellow => "bg-yellow-500"
    case Green => "bg-green-500"
  }

  /** `getColorClasses()`, with its own chain of tests. */
  function ColorClasses(t: TableSummary): (r: string)
    ensures r == CardPalette(CardBucket(t))
  {
    if t.currentOccupancy == 0 then "bg-gray-50 border-gray-300 text-gray-700"
    else
      var percentage := t.percentageOccupied;
      if AtLeast(percentage, 100.0) then "bg-red-50 border-red-400 text-red-900"
      else if AtLeast(percentage, 80.0) then "bg-orange-50 border-orange-400 text-orange-900"
      else if AtLeast(percentage, 50.0) then "bg-yellow-50 border-yellow-400 text-yellow-900"
      else "bg-green-50 border-green-400 text-green-900"
  }

  /** `getBadgeColor()`, with its own chain of tests. */
  function BadgeColor(t: TableSummary): (r: string)
    ensures r == BadgePalette(CardBucket(t))
  {
    if t.currentOccupancy == 0 then "bg-gray-200 text-gray-700"
    else
      var percentage := t.percentageOccupied;
      if AtLeast(percentage, 100.0) then "bg-red-200 text-red-800"
      else if AtLeast(percentage, 80.0) then "bg-orange-200 text-orange-800"
      else if AtLeast(percentage, 50.0) then "bg-yellow-200 text-yellow-800"
      else "bg-green-200 text-green-800"
  }

  /** The colour of the progress bar: the same thresholds, but no special case for an empty table. */
  function ProgressBarColor(t: TableSummary): (r: string)
    ensures r == BarPalette(PercentBucket(t.percentageOccupied))
  {
    if AtLeast(t.percentageOccupied, 100.0) then "bg-red-500"
    else if AtLeast(t.percentageOccupied, 80.0) then "bg-orange-500"
    else if AtLeast(t.percentageOccupied, 50.0) then "bg-yellow-500"
    else "bg-green-500"
  }

  /** `Math.min(table.percentageOccupied, 100)`, the width of the bar in percent. */
  function ProgressBarWidth(t: TableSummary): (w: Percentage)
    ensures w.Finite? ==> w.value <= 100.0
    ensures AtLeast(t.percentageOccupied, 100.0) <==> w == Finite(100.0)
    ensures !AtLeast(t.percentageOccupied, 100.0) ==> w == t.percentageOccupied
  {
    CapAt100(t.percentageOccupied)
  }

  /** Card and badge never disagree: whichever palette one picks from, the other picks the same colour family. */
  lemma CardAndBadgeAgree(t: TableSummary, b: Bucket)
    ensures ColorClasses(t) == CardPalette(b) <==> BadgeColor(t) == BadgePalette(b)
  {
  }

  /**
   * On a consistent table the buckets are decided by the seat counts alone:
   * red when full, orange from 4/5 of the seats, yellow from half, green
   * below, and gray when empty.
   */
  lemma BucketBySeats(t: TableSummary)
    requires Consistent(t)
    ensures CardBucket(t) == Empty <==> t.currentOccupancy == 0
    ensures CardBucket(t) == Red <==> 0 < t.currentOccupancy && t.currentOccupancy == t.maxCapacity
    ensures CardBucket(t) == Orange <==> 0 < t.currentOccupancy < t.maxCapacity && 5 * t.currentOccupancy >= 4 * t.maxCapacity
    ensures CardBucket(t) == Yellow <==> 0 < t.currentOccupancy && 5 * t.currentOccupancy < 4 * t.maxCapacity && 2 * t.currentOccupancy >= t.maxCapacity
    ensures CardBucket(t) == Green <==> 0 < t.currentOccupancy && 2 * t.currentOccupancy < t.maxCapacity
  {
    var occ, cap := t.currentOccupancy, t.maxCapacity;
    if occ > 0 {
      AtLeastByCrossMultiplication(occ, cap, 100);
      AtLeastByCrossMultiplication(occ, cap, 80);
      AtLeastByCrossMultiplication(occ, cap, 50);
    }
  }

  /** One more guest never moves a table to a lower bucket (green < yellow < orange < red). */
  lemma BucketMonotone(t: TableSummary, id: int)
    requires Consistent(t) && t.currentOccupancy > 0 && id != 0
    ensures Rank(CardBucket(UpdateTable(t, None, Some(id)))) >= Rank(CardBucket(t))
  {
    var u := UpdateTable(t, None, Some(id));
    UpdateKeepsTableConsistent(t, None, Some(id));
    BucketBySeats(t);
    BucketBySeats(u);
  }

  function Rank(b: Bucket): nat {
    match b
    case Empty => 0
    case Green => 1
    case Yellow => 2
    case Orange => 3
    case Red => 4
  }

  /** On an occupied table the bar shows the colour family of the card. */
  lemma BarMatchesCardWhenOccupied(t: TableSummary)
    requires t.currentOccupancy != 0
    ensures ProgressBarColor(t) == BarPalette(CardBucket(t))
  {
  }

  /** On an empty consistent table the card is gray but the bar is green (its percentage is 0, or NaN with no seats). */
  lemma EmptyTableBarIsGreen(t: TableSummary)
    requires Consistent(t) && t.currentOccupancy == 0
    ensures ColorClasses(t) == CardPalette(Empty)
    ensures ProgressBarColor(t) == "bg-green-500"
  {
    if t.maxCapacity > 0 {
      AtLeastByCrossMultiplication(0, t.maxCapacity, 50);
    }
  }

  /** On a consistent table with seats the bar is exactly as wide as the percentage, which lies in [0, 100]. */
  lemma BarWidthIsPercentage(t: TableSummary)
    requires Consistent(t) && t.maxCapacity > 0
    ensures ProgressBarWidth(t) == t.percentageOccupied
    ensures 0.0 <= ProgressBarWidth(t).value <= 100.0
  {
    PercentWithinCapacity(t.currentOccupancy, t.maxCapacity);
  }

  // ---------------------------------------------------------------- labels

  /** "LLENA" is shown exactly when the table says it is full. */
  predicate ShowsFullTag(t: TableSummary) {
    t.isFull
  }

  /** On a consistent table with seats, the "LLENA" tag and the red colour go together. */
  lemma FullTagIsRed(t: TableSummary)
    requires Consistent(t) && t.maxCapacity > 0
    ensures ShowsFullTag(t) <==> CardBucket(t) == Red
  {
    BucketBySeats(t);
  }

  /** "n espacio(s) disponible(s)": shown when the table is neither full nor empty, singular for exactly one seat. */
  function AvailableSeatsLine(t: TableSummary): (r: Option<string>)
    ensures r.Some? <==> !t.isFull && t.currentOccupancy > 0
    ensures r.Some? ==> IntToString(t.availableSeats) <= r.value
    ensures r.Some? ==> (r.value[|r.value| - 1] == 's' <==> t.availableSeats != 1)
  {
    if !t.isFull && t.currentOccupancy > 0 then
      var a := t.availableSeats;
      Some(IntToString(a) + " " + (if a == 1 then "espacio" else "espacios") + " disponible" + (if a == 1 then "" else "s"))
    else None
  }

  /** On a consistent table the seats line appears exactly for a partly occupied table, and then counts at least one seat. */
  lemma SeatsLineOnPartlyOccupied(t: TableSummary)
    requires Consistent(t)
    ensures AvailableSeatsLine(t).Some? <==> 0 < t.currentOccupancy < t.maxCapacity
    ensures AvailableSeatsLine(t).Some? ==> t.availableSeats >= 1
  {
  }

  /** The "Ver invitados" button cannot be pressed on an empty table. */
  predicate ViewGuestsDisabled(t: TableSummary) {
    t.currentOccupancy == 0
  }

  /** On a consistent table the button is disabled exactly when its caption says there is nobody to show. */
  lemma DisabledButtonSaysNoGuests(t: TableSummary)
    requires Consistent(t)
    ensures ViewGuestsDisabled(t) <==> ViewGuestsCaption(t) == "\U{1F465} Sin invitados"
  {
  }

  /** The caption of the button: the number of guests when there are any. */
  function ViewGuestsCaption(t: TableSummary): (r: string)
    ensures t.currentOccupancy <= 0 <==> r == "\U{1F465} Sin invitados"
    ensures t.currentOccupancy > 0 ==> exists k :: OccursAt(r, IntToString(t.currentOccupancy), k)
  {
    if t.currentOccupancy > 0 then
      var n := IntToString(t.currentOccupancy);
      var r := "\U{1F465} Ver invitados (" + n + ")";
      assert OccursAt(r, n, 17);
      r
    else "\U{1F465} Sin invitados"
  }
}
