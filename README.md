# Wedding invitations front end — a verified model of its client-side logic

This project models the bookkeeping and validation logic of the administration front end of a wedding-invitation system. The front end is a React/TypeScript application over a remote REST API. The model states and proves what that logic promises.

- **The seating page.** `handleTableAssignment` applies an assignment delta `(oldTableId, newTableId)` to the list of tables and to the global statistics, without fetching them again. The model proves:
  - bounds are preserved;
  - untouched tables are unchanged;
  - the assign/unassign round trip;
  - `totalOccupied` stays equal to the sum of the table occupancies for every feasible delta;
  - the drift that appears when a delta is not feasible.
- **The guest row.** The row issues a table change, writes it into the guest record in place on success, and rolls it back on failure. Its dropdown always offers the guest's current table. Its country badge is chosen case-insensitively.
- **The seating list.** Page changes are bounds-checked, a search returns to page 1, the five-wide window of page buttons is computed, and the navigation buttons are disabled by rule.
- **The table card.** The colour buckets over the occupancy percentage are modelled with JavaScript's Infinity/NaN semantics, together with the progress bar and the labels. On a consistent table the buckets are decided by integer seat counts alone.
- **The dashboard.**
  - The WhatsApp number is normalised and the country falls back to Mexico.
  - Families are replaced, removed and appended.
  - The summary counters are computed.
  - `createInvitation` runs its guard chain and builds its request.
- **The guest confirmation form.** It starts with blank entries and applies indexed edits. The filled-in guests are filtered and cleaned, and the submit button is enabled and labelled by rule.
- **The admin tabs.**
  - Adding a guest: the validation chain, request shaping, resets after success, and the family dropdown.
  - Editing a guest: the case-insensitive search, choosing a guest, and the update's validation and request.

Remote calls are parameters of type `Settled<T>`: the call resolves with a value, or it rejects with an `Error` or with some other thrown value. Every handler is proved for both outcomes.

Source files that only compute values are modelled as functions and lemmas:
- `app/tables/page.tsx`
- `TableCard.tsx`
- `GuestForm.tsx`

State that a component changes step by step is modelled as a `class` whose methods carry `modifies` clauses and state the whole new state:
- the guest record and the row in `Guestrow.tsx`;
- the pagination in `GuestsList.tsx`;
- the dashboard page;
- the two admin tabs.

Each class method is tied to a pure function (`AfterPageChange`, `ValidateAddGuest`, `ValidateEdit`, `InvitationRequest`, `FilterGuests`, `RemoveFamily`, `ReplaceFamily`, `WhatsAppNumber`), and the lemmas are proved about those functions.

Shared modules:
- `Wrappers`: `Option`, `Result`, `Thrown`, `Settled`.
- `Text`: `trim` over a fixed whitespace set, `toLowerCase` over ASCII and `É`, `includes`, `/\D/g`, decimal printing and parsing.
- `Numbers`: id truthiness, and JavaScript percentages including Infinity and NaN.
- `Lists`: `filter` and the order-preserving sub-list relation.
- `GuestData`: the guest fields and the cleaned guest payload.

## Model

| member | source | states |
|---|---|---|
| TablesPage.UpdateTable | app/tables/page.tsx:47-74 | The old table (tested by truthiness) loses one guest, floored at 0. Otherwise the new table gains one, capped at capacity. Either way the derived fields are recomputed. A table matching neither id is returned unchanged, and identity fields never change. |
| TablesPage.UpdateTables | app/tables/page.tsx:44-76 | The list keeps its length and order. Every entry is the per-table update of the entry at the same position. |
| TablesPage.UpdateStats | app/tables/page.tsx:79-108 | Statistics not yet loaded stay absent. Unassigned→assigned increments assigned and occupied, decrements unassigned (floored at 0) and decrements the available seats. Assigned→unassigned does the reverse (clamped at 0), with the percentage computed from the unclamped `assigned - 1`. Any other transition leaves the statistics identical. The totals never change. |
| TablesPage.HandleTableAssignment | app/tables/page.tsx:42-109 | Applies both updates. The table count is preserved, presence of the statistics is preserved, and every table stays within `[0, maxCapacity]` with consistent derived fields. |
| TablesPage.UpdateKeepsTableConsistent | app/tables/page.tsx:47-72 | A table within capacity, with agreeing derived fields, stays so after any delta. |
| TablesPage.PreservesConsistency | app/tables/page.tsx:44-76 | The table invariant holds for the whole list after any delta. |
| TablesPage.DuplicateDeltaStaysInBounds | app/tables/page.tsx:42-109 | The same delta applied twice still leaves every table within bounds: the clamps absorb the repetition. |
| TablesPage.SameTableOnlyDecremented | app/tables/page.tsx:47-61 | When the old and new ids are the same table, only the old-table branch runs: the occupancy drops by one. |
| TablesPage.TableRoundTrip | app/tables/page.tsx:47-72 | Assigning to a table with room and then unassigning restores the table exactly. |
| TablesPage.FullTableRoundTripLosesSeat | app/tables/page.tsx:61-72 | On a full table the cap absorbs the assignment. The unassignment then frees a seat, so the round trip loses one occupant. |
| TablesPage.TablesRoundTrip | app/tables/page.tsx:44-76 | Assign-then-unassign restores the whole list when the target table has room. |
| TablesPage.StatsKeepBalance | app/tables/page.tsx:83-103 | `assigned + unassigned == totalGuests` is preserved by every transition whose clamp does not fire. |
| TablesPage.StatsRoundTrip | app/tables/page.tsx:83-103 | Assign then unassign restores all four integer counters; the percentage is recomputed from the restored count. |
| TablesPage.AbsentId | app/tables/page.tsx:44-76 | An id counted zero times matches no table of the list. |
| TablesPage.NonNegativeSum | app/tables/page.tsx:44-76 | Consistent tables have a non-negative occupancy sum. |
| TablesPage.UntouchedList | app/tables/page.tsx:74 | A delta naming no table of the list leaves the list unchanged. |
| TablesPage.SumAfterAssign | app/tables/page.tsx:61-72 | Assigning to the unique table with that id, which has room, adds exactly one to the occupancy sum. |
| TablesPage.SumAfterUnassign | app/tables/page.tsx:47-58 | Unassigning from the unique occupied table with that id removes exactly one from the sum. |
| TablesPage.SumAfterMove | app/tables/page.tsx:44-76 | Moving a guest between two distinct tables keeps the occupancy sum. |
| TablesPage.SyncPreserved | app/tables/page.tsx:42-109 | For every feasible delta, in all four transition cases, `totalOccupied == Σ currentOccupancy` is preserved. |
| TablesPage.FullTargetDrifts | app/tables/page.tsx:61-91 | Assigning to a full table leaves the occupancy sum unchanged while the statistics count one more occupied seat: the counters drift apart. |
| GuestRow.Guest.constructor | app/components/tables/Guestrow.tsx:15-20 | The guest record holds the id, table id, table name and country it was given. |
| GuestRow.IndexOfTable | app/components/tables/Guestrow.tsx:31 | Returns the first index whose table has the id, or -1 exactly when none has it. |
| GuestRow.NewTableName | app/components/tables/Guestrow.tsx:30-32 | Returns the name of the first available table with that id. It is absent when the id is falsy, when no available table has it, or when the name is empty. |
| Text.ParseOptionValue | app/components/tables/Guestrow.tsx:27 | `''` gives no table; any option value gives the id it prints as, so the same option is shown again. The family dropdown reads its value the same way (app/admin/Addguesttab.tsx:228-231). |
| GuestRow.SelectValueOf | app/components/tables/Guestrow.tsx:49 | No table shows as `''`. A table id shows as its canonical decimal string. |
| GuestRow.SelectionRoundTrip | app/components/tables/Guestrow.tsx:27-115 | Showing the parsed choice gives back the option value chosen. |
| GuestRow.TableOptions | app/components/tables/Guestrow.tsx:125-143 | The list starts with the enabled "Sin asignar" option. When the guest's table is set but missing from the available tables, the second option is that table's id, captioned with its name plus " (Llena)", enabled. The last options are the available tables, in order, each with its id, its caption and its disabled flag. Every option value parses as a table id or `''`. |
| GuestRow.CurrentTableAlwaysSelectable | app/components/tables/Guestrow.tsx:128-142 | A guest with a table always finds that table among the options, enabled, whether or not it is still available. |
| GuestRow.FullOptionOnlyForMissingTable | app/components/tables/Guestrow.tsx:128-132 | The extra "(Llena)" option exists exactly when the guest's table is missing from the available tables. |
| GuestRow.AvailableOptionDisabled | app/components/tables/Guestrow.tsx:136-142 | An available table's option is disabled iff it has no seats left and is not the guest's table. |
| GuestRow.ChosenOptionParses | app/components/tables/Guestrow.tsx:27-142 | Choosing an available table's option hands the handler exactly that table's id. |
| GuestRow.CountryBadgeColor | app/components/tables/Guestrow.tsx:60-67 | Green iff the lowercased country contains "méxico" or "mexico". Otherwise blue iff it contains "estados unidos" or "usa". Otherwise gray. |
| GuestRow.BadgeIgnoresCase | app/components/tables/Guestrow.tsx:60-61 | A country gets the same badge colour as its lowercase form. |
| GuestRow.Row.constructor | app/components/tables/Guestrow.tsx:11-115 | A new row is idle, shows no error, and its select shows the guest's table. |
| GuestRow.Row.BeginTableChange | app/components/tables/Guestrow.tsx:15-32 | Captures the old id and name, marks the row busy, clears the error and issues the parsed id. The guest record is not touched yet. |
| GuestRow.Row.SettleTableChange | app/components/tables/Guestrow.tsx:35-56 | On success the guest record takes the new id and name and the delta is reported. On failure the error message (or "Error al asignar mesa") is shown, the select is reset to the old table and the record is restored. The row is released in both cases. |
| GuestRow.Row.HandleTableChange | app/components/tables/Guestrow.tsx:15-57 | On success the guest sits at the chosen table, the select shows it and `(guest.id, old, new, name)` is reported. On failure the guest and the select are exactly as before, and the error shows the failure's message or "Error al asignar mesa". |
| GuestsList.AfterPageChange | app/components/tables/GuestsList.tsx:63-67 | Moves to `newPage` iff `1 <= newPage <= totalPages`. Page size, item count and page count never change. |
| GuestsList.PageChangeKeepsRange | app/components/tables/GuestsList.tsx:63-67 | A current page among the existing pages stays there after any page change. |
| GuestsList.RefusedPageChangeIsNoOp | app/components/tables/GuestsList.tsx:64 | A refused page change leaves the pagination identical. |
| GuestsList.PageWindow | app/components/tables/GuestsList.tsx:210-220 | The window has `min(5, totalPages)` buttons, and none when there are no pages. |
| GuestsList.WindowConsecutive | app/components/tables/GuestsList.tsx:211-220 | Window entries are consecutive increasing page numbers. |
| GuestsList.SmallWindowShowsAll | app/components/tables/GuestsList.tsx:212-213 | With at most five pages, the window is exactly `1..totalPages`. |
| GuestsList.WindowCoversCurrentPage | app/components/tables/GuestsList.tsx:210-220 | On an existing page every entry lies in `[1, totalPages]` and the current page is in the window. |
| GuestsList.WindowButtonsAccepted | app/components/tables/GuestsList.tsx:210-226 | Every window button requests a page that `handlePageChange` accepts. |
| GuestsList.ButtonsMatchAcceptedMoves | app/components/tables/GuestsList.tsx:193-254 | When not loading, the back and forward buttons are enabled exactly when the move they request is accepted and leads elsewhere. |
| GuestsList.LoadingDisablesNavigation | app/components/tables/GuestsList.tsx:193-254 | While loading, every navigation button is disabled. |
| GuestsList.ShownBarIsNavigable | app/components/tables/GuestsList.tsx:177-254 | On an existing page and not loading, the pagination bar (shown only with more than one page) appears exactly when at least one of the back and forward directions is enabled. |
| GuestsList.GuestsList.constructor | app/components/tables/GuestsList.tsx:12-18 | The list starts on page 1 of 0, with page size 20 and an empty filter. |
| GuestsList.GuestsList.HandlePageChange | app/components/tables/GuestsList.tsx:63-67 | The new pagination is `AfterPageChange` of the old one, and the filter is kept. |
| GuestsList.GuestsList.HandleSearchChange | app/components/tables/GuestsList.tsx:70-74 | Stores the filter and returns to page 1; nothing else changes. |
| TableCard.PercentBucket | app/components/tables/TableCard.tsx:17-27 | The first threshold reached wins: ≥100 red, ≥80 orange, ≥50 yellow, else green. NaN and −∞ count as green. |
| TableCard.CardBucket | app/components/tables/TableCard.tsx:13-34 | Gray iff nobody sits at the table, whatever the percentage. Otherwise the percentage bucket. |
| TableCard.ColorClasses | app/components/tables/TableCard.tsx:11-28 | The card's classes are the card palette of the table's bucket. |
| TableCard.BadgeColor | app/components/tables/TableCard.tsx:31-47 | The badge's classes are the badge palette of the same bucket. |
| TableCard.CardAndBadgeAgree | app/components/tables/TableCard.tsx:11-47 | Card and badge always choose the same colour family. |
| TableCard.ProgressBarColor | app/components/tables/TableCard.tsx:89-97 | Uses the same thresholds but no gray case for an empty table. |
| TableCard.ProgressBarWidth | app/components/tables/TableCard.tsx:98 | `min(percentage, 100)`: never above 100, exactly 100 iff the percentage reaches 100 (+∞ included), and the percentage itself otherwise (NaN and −∞ included). |
| TableCard.BucketBySeats | app/components/tables/TableCard.tsx:11-47 | On a consistent table: red iff full and occupied; orange iff `5·occ ≥ 4·cap`; yellow iff `2·occ ≥ cap` below that; green below half; gray iff empty. |
| TableCard.BucketMonotone | app/components/tables/TableCard.tsx:11-28 | Seating one more guest at an occupied consistent table never lowers its colour rank. |
| TableCard.BarMatchesCardWhenOccupied | app/components/tables/TableCard.tsx:11-97 | On an occupied table the bar shows the card's colour family. |
| TableCard.EmptyTableBarIsGreen | app/components/tables/TableCard.tsx:13-97 | An empty consistent table has a gray card but a green bar. |
| TableCard.BarWidthIsPercentage | app/components/tables/TableCard.tsx:98 | On a consistent table with seats the width equals the percentage, which lies in [0, 100]. |
| TableCard.FullTagIsRed | app/components/tables/TableCard.tsx:110-116 | On a consistent table with seats, "LLENA" shows iff the card is red. |
| TableCard.AvailableSeatsLine | app/components/tables/TableCard.tsx:119-123 | Shown iff the table is neither full nor empty. It starts with the seat count, and ends in a plural "s" iff the count is not 1. |
| TableCard.SeatsLineOnPartlyOccupied | app/components/tables/TableCard.tsx:119-123 | On a consistent table the line shows exactly for a partly occupied table, and counts at least one seat. |
| TableCard.ViewGuestsCaption | app/components/tables/TableCard.tsx:138-140 | "Sin invitados" iff nobody is seated. Otherwise the caption contains the occupancy count. |
| TableCard.DisabledButtonSaysNoGuests | app/components/tables/TableCard.tsx:128-140 | On a consistent table the button is disabled iff its caption says there are no guests. |
| Dashboard.IndexOfCountry | app/page.tsx:7-67 | Returns the index of the country with that code, or -1 iff no country of the table has it. |
| Dashboard.CountryFor | app/page.tsx:66-67 | Returns the country with that code. An unknown or missing code falls back to Mexico, the first entry. |
| Dashboard.PrefixLabel | app/page.tsx:575-576 | The prefix shown beside the phone field is the prefix of the fallback-resolved country. |
| Dashboard.WhatsAppNumber | app/page.tsx:101-119 | The dialled number is all digits and ends with the phone's digits in order: nothing is dropped or reordered. |
| Dashboard.FormatPhone | app/page.tsx:101-119 | The `switch` over the country computes exactly `WhatsAppNumber`. |
| Dashboard.PrefixIsCallingCode | app/page.tsx:103-119 | A number of national length for MX/US/ES gets that country's calling code, which is its prefix without '+', followed by its digits. |
| Dashboard.OtherNumbersUnprefixed | app/page.tsx:103-119 | Unknown countries and other lengths are dialled as the bare digits. |
| Dashboard.FormatIdempotent | app/page.tsx:101-119 | Formatting an already formatted number changes nothing. |
| Dashboard.ReplaceFamily | app/page.tsx:138 | The list keeps its length. Exactly the families with that id are replaced, and all others are kept in place. |
| Dashboard.ReplaceFamilyIdempotent | app/page.tsx:138 | Replacing with the same server copy twice gives the same result as replacing once. |
| Dashboard.RemoveFamily | app/page.tsx:154 | No family with the id remains. Every other family is kept, in order, with as many copies as the list held. |
| Dashboard.DeleteAbsentFamily | app/page.tsx:154 | Deleting an id nobody has leaves the list unchanged. |
| Dashboard.CreateThenDelete | app/page.tsx:154-246 | Appending a newly created family with a fresh id and then deleting it restores the list. |
| Dashboard.Summarize | app/page.tsx:294-317 | Confirmed plus pending never exceeds the number of families. |
| Dashboard.SummaryAfterCreate | app/page.tsx:246-317 | Appending a family adds one to the total, counts it by its status, and adds its confirmed guests. |
| Dashboard.ConfirmedGuestsAppend | app/page.tsx:317 | The confirmed-guest total of a concatenation is the sum of the two totals. |
| Dashboard.ConfirmedGuestsNonNegative | app/page.tsx:317 | Non-negative confirmed counts give a non-negative total. |
| Dashboard.OrUndefined | app/page.tsx:221-235 | An empty email is not sent; any other is sent as is. |
| Dashboard.InvitationRequest | app/page.tsx:206-239 | A missing phone is refused first. "individual" uses the name as family and contact and sets one place. Any other kind, even none chosen, needs a family name and a contact person and keeps the chosen places. |
| Dashboard.IndividualNeedsOnlyPhone | app/page.tsx:206-224 | An individual invitation is accepted iff the phone is given, even with an empty name. |
| Dashboard.Home.constructor | app/page.tsx:14-32 | The page starts loading, with no families, the modal closed and a blank form with country MX and 2 places. |
| Dashboard.Home.ResetModal | app/page.tsx:50-62 | Closes the modal, clears the invitation type and blanks the form; the families are untouched. |
| Dashboard.Home.CreateInvitation | app/page.tsx:201-259 | Sends exactly the validated request. On success the created family is appended, its code is announced and the modal is reset. On refusal or failure the families and the form are unchanged and the right alert is shown. `isCreating` ends false once the phone check passes. |
| Dashboard.Home.DeleteFamily | app/page.tsx:143-163 | Cancelling changes nothing. A confirmed, successful delete removes the family. A failed delete keeps the list and alerts the error's message, or "Error desconocido". Loading ends false. |
| Dashboard.Home.MarkAsSent | app/page.tsx:132-142 | On success the server's copy replaces the family; on failure nothing changes. |
| GuestData.CleanGuest | app/components/GuestForm.tsx:63-68 | The name is trimmed, and it is non-empty iff the guest is filled in. Optional text is sent trimmed, and left out exactly when it is blank. |
| GuestData.CleanGuestRoundTrip | app/admin/Editguesttab.tsx:72-109 | A cleaned payload shown in the form and cleaned again is unchanged. |
| GuestData.ErrorText | app/admin/Addguesttab.tsx:138-141 | `error.message || fallback`: the message of an `Error` when it is non-empty, otherwise the fallback. |
| GuestForm.InitialGuests | app/components/GuestForm.tsx:32-39 | There are `maxGuests` entries (none for a negative count), each a blank adult. |
| GuestForm.UpdateGuest | app/components/GuestForm.tsx:44-49 | Only entry `index` changes, by the given field edit. The length and every other entry are kept, and an out-of-range index changes nothing. |
| GuestForm.ValidGuests | app/components/GuestForm.tsx:53 | Exactly the guests with a non-blank name, each as often as the form holds it, as an order-preserving sub-list. |
| GuestForm.FilledGuests | app/components/GuestForm.tsx:79 | Zero iff no guest has a name; never more than the number of entries. |
| GuestForm.BuildRequest | app/components/GuestForm.tsx:51-70 | Nothing is sent iff no guest is filled in. Otherwise the filled-in guests are sent in order, cleaned and with non-empty names, and the family message is trimmed or left out. |
| GuestForm.SubmittedNamesTrimmed | app/components/GuestForm.tsx:65 | Every submitted name is non-empty and already trimmed. |
| GuestForm.NonNameEditKeepsFilled | app/components/GuestForm.tsx:44-79 | Editing anything but a name never changes the filled-in count. |
| GuestForm.SubmitCaption | app/components/GuestForm.tsx:316 | "Guardando..." iff submitting. Otherwise the caption ends in the plural "s" iff the count is not 1. |
| GuestForm.FreshFormDisabled | app/components/GuestForm.tsx:32-305 | A fresh form cannot be submitted. |
| GuestForm.ButtonEnabledIffSendable | app/components/GuestForm.tsx:51-305 | When not saving, the button is enabled iff `handleSubmit` would send a request. |
| GuestForm.Submit | app/components/GuestForm.tsx:51-77 | The request sent is exactly `BuildRequest`; with none it alerts and changes nothing. After sending, `submitting` is false and an alert is shown iff `onSubmit` failed. |
| GuestForm.SubmitFailureMessage | app/components/GuestForm.tsx:71-73 | A failure alerts the error's message. A non-`Error` gives "Error desconocido", and an empty message gives the generic text. |
| AddGuestTab.ValidateAddGuest | app/admin/Addguesttab.tsx:60-108 | A blank guest name is refused first. "existing" then needs a truthy family id. "new" needs family name, contact and phone, but not the email. The request carries the family id only in "existing" mode, the untrimmed new family only in "new" mode, and the cleaned guest. |
| AddGuestTab.ClearedFormRefused | app/admin/Addguesttab.tsx:65-163 | A cleared form is always refused, for its empty name. |
| AddGuestTab.FamilySelectValue | app/admin/Addguesttab.tsx:227 | The dropdown shows `''` iff the id is falsy, and otherwise a decimal id. |
| AddGuestTab.FamilySelectionRoundTrip | app/admin/Addguesttab.tsx:227-231 | Showing and reading back a selection gives it back, except that id 0 reads back as none. |
| AddGuestTab.FamilyOptionRoundTrip | app/admin/Addguesttab.tsx:227-231 | Reading an option and showing it gives the option back, for every value but "0". |
| GuestData.SavedMessage | app/admin/Addguesttab.tsx:112-115 | The success banner names the guest as the server stored it. The edit tab uses the same banner with "actualizado" (app/admin/Editguesttab.tsx:116-119). |
| AddGuestTab.AddGuestTab.constructor | app/admin/Addguesttab.tsx:8-37 | The tab starts in "existing" mode with nothing selected, a blank guest and new family (country MX), and no message. |
| AddGuestTab.AddGuestTab.SetMode | app/admin/Addguesttab.tsx:192-205 | Only the mode changes. |
| AddGuestTab.AddGuestTab.SelectFamily | app/admin/Addguesttab.tsx:228-231 | Only the selected family changes, to the parsed option. |
| AddGuestTab.AddGuestTab.LoadFamilies | app/admin/Addguesttab.tsx:44-58 | Success replaces the families. Failure keeps them and shows "Error al cargar familias". |
| AddGuestTab.AddGuestTab.SettleAdd | app/admin/Addguesttab.tsx:96-144 | After the checks pass: on success the guest is cleared (and the new family only in "new" mode) and the families are reloaded, announcing the stored name or the reload error. On failure everything typed stays and the error or the fallback is shown. Loading ends false. |
| AddGuestTab.AddGuestTab.HandleSubmit | app/admin/Addguesttab.tsx:60-145 | A refusal shows the guard's message and sends nothing. Otherwise it sends exactly the validated request. On success it clears the guest (and the new family only in "new" mode), reloads the families and announces the stored name. On failure it keeps the form and shows the error or the fallback. Loading ends false. |
| AddGuestTab.AddGuestTab.HandleClear | app/admin/Addguesttab.tsx:147-163 | Clears the guest, the new family (back to MX), the selection and the message. The mode and the families stay. |
| EditGuestTab.FilterGuests | app/admin/Editguesttab.tsx:38-51 | A blank term shows every guest. Otherwise exactly the guests whose lowercased name or family name contains the lowercased, untrimmed term, each as often as the list holds it. The result is always an order-preserving sub-list. |
| EditGuestTab.SearchIgnoresCase | app/admin/Editguesttab.tsx:43-47 | Searching for a term or its lowercase form gives the same list. |
| EditGuestTab.LowerKeepsBlank | app/admin/Editguesttab.tsx:40-43 | Lowercasing keeps a term blank or non-blank. |
| EditGuestTab.TermNotTrimmed | app/admin/Editguesttab.tsx:40-47 | The term is searched as typed: " ana" does not find "Ana Ruiz". |
| EditGuestTab.FindGuest | app/admin/Editguesttab.tsx:192 | Returns the first loaded guest with that id, or none iff no loaded guest has it. |
| EditGuestTab.OptionNumber | app/admin/Editguesttab.tsx:192 | `Number` of the placeholder `''` is 0; any other option value gives the id whose decimal string it is. |
| EditGuestTab.EditFieldsOf | app/admin/Editguesttab.tsx:72-77 | Copies the name and child flag; missing text becomes `""`. |
| EditGuestTab.CleanTextKept | app/admin/Editguesttab.tsx:75-108 | Clean optional text survives being shown in the form and cleaned again. |
| EditGuestTab.UnchangedResubmit | app/admin/Editguesttab.tsx:72-109 | Saving an unedited guest whose data is already clean sends that data back unchanged. |
| EditGuestTab.ValidateEdit | app/admin/Editguesttab.tsx:85-109 | No chosen guest is refused first. Then a blank name is refused. Otherwise the request is the chosen guest's id and the cleaned fields. |
| EditGuestTab.EditGuestTab.constructor | app/admin/Editguesttab.tsx:8-31 | An empty tab: nothing loaded, chosen or typed; the shown list is the search over the loaded guests. |
| EditGuestTab.EditGuestTab.SetSearchTerm | app/admin/Editguesttab.tsx:38-51 | The term changes and the shown list is the search over the loaded guests again. |
| EditGuestTab.EditGuestTab.LoadGuests | app/admin/Editguesttab.tsx:53-68 | Success replaces the guests and filters again. Failure keeps them and shows "Error al cargar invitados". |
| EditGuestTab.EditGuestTab.HandleSelectGuest | app/admin/Editguesttab.tsx:70-79 | The guest is chosen and its data fills the form; the message is cleared. |
| EditGuestTab.EditGuestTab.ChooseGuest | app/admin/Editguesttab.tsx:190-195 | The option's guest is looked up among all loaded guests and selected when found; otherwise nothing changes. |
| EditGuestTab.EditGuestTab.HandleSubmit | app/admin/Editguesttab.tsx:81-140 | A refusal shows the guard's message and sends nothing. Otherwise it sends exactly the validated request. On success it reloads, announces the stored name and updates the chosen guest with the stored fields. On failure it shows the error or the fallback. Loading ends false, and the search stays consistent. |
| EditGuestTab.EditGuestTab.HandleCancel | app/admin/Editguesttab.tsx:142-152 | Clears the selection, the form, the term and the message. The shown list becomes every loaded guest. |
| Text.Trim | app/components/GuestForm.tsx:53-65 | `trim()` removes exactly the leading and trailing whitespace: the result is a slice of the input with only whitespace before and after it, it neither starts nor ends with whitespace, and it is empty iff the input is blank. |
| Text.TrimOfTrimmed | app/components/GuestForm.tsx:65 | Trimming is idempotent. |
| Text.TrimmedOrUndefined | app/components/GuestForm.tsx:66-69 | `s.trim() \|\| undefined`: absent iff blank, otherwise the non-empty trimmed text. |
| Text.Contains | app/admin/Editguesttab.tsx:46-47 | `includes` holds iff the substring occurs at some index. |
| Text.StripNonDigits | app/page.tsx:101 | `replace(/\D/g, "")` leaves only digits, keeps an all-digit string unchanged, and is empty iff the input has no digit. With `StripNonDigitsAppend` this fixes the result as the digits of the input, in order. |
| Text.StripNonDigitsAppend | app/page.tsx:101 | Stripping distributes over concatenation: no digit is lost or reordered. |
| Text.ParseOfToString | app/components/tables/Guestrow.tsx:27-115 | `parseInt(String(n)) == n`. |
| Text.ToStringOfParse | app/components/tables/Guestrow.tsx:27-49 | A canonical decimal string prints back from its parsed value. |
| Numbers.PercentOf | app/tables/page.tsx:50-64 | `(part / whole) * 100`: finite iff the denominator is non-zero, and then exact. Otherwise +∞, −∞ or NaN by the sign of the numerator. |
| Numbers.CapAt100 | app/components/tables/TableCard.tsx:98 | `Math.min(p, 100)`: never above 100, and exactly 100 iff `p >= 100`, and `p` itself otherwise, so NaN and −∞ pass through unchanged. |
| Numbers.AtLeastByCrossMultiplication | app/components/tables/TableCard.tsx:19-26 | With seats, `percentage >= t` iff `100·occ >= t·cap`. |
| Numbers.PercentWithinCapacity | app/tables/page.tsx:50-64 | A table within capacity has a percentage in [0, 100], reaching 100 exactly when full. |
| Lists.Filter | app/page.tsx:154 | `filter` keeps exactly the elements satisfying the callback, in order. |
| Lists.FilterCount | app/page.tsx:154 | `filter` keeps each passing value exactly as many times as the list holds it, and no copy of a failing value. |
| Lists.FilterAppend | app/page.tsx:246-309 | Filtering distributes over appending. |
| Lists.DisjointFiltersBounded | app/page.tsx:301-309 | Two filters with exclusive conditions keep no more than the list between them. |

## Left out

- **Remote calls.** All `fetch`/API calls (`familiesApi`, `tablesApi`, `guestManagementApi`) are parameters. The model receives the outcome: resolved with the server's value, or rejected. What the server stores or returns is not modelled.
- **Loading effects.** `loadData`, the `loadGuests`/`loadFamilies` effects and the `loadingFamilies`/`loadingGuests` flags are not modelled, except where a handler awaits a reload.
- **Asynchrony.** `Promise.all` parallel loading is left out. So are the two-second `setTimeout` before `markAsSent`, concurrent handlers, and the stale `families` closure `markAsSent` captures. Each handler runs to completion on the state it starts from.
- **Floating point.** Percentages are exact reals with JavaScript's Infinity/NaN cases for a zero denominator. `toFixed` rounding and floating-point rounding are not modelled.
- **Browser and library calls:**
  - `confirm`: its answer is a parameter.
  - `alert`: its text is a result.
  - `window.open`, `encodeURIComponent` and the WhatsApp message template are left out.
  - The Excel download (app/page.tsx:164-199) is left out.
- **Unicode.** `trim` is over a fixed whitespace set, and `toLowerCase` covers ASCII letters and `É` only.
- **Number parsing.** `parseInt`/`Number` are modelled only on the canonical decimal strings that option values carry.
- **Presentation.** JSX, styling and class strings beyond the bucket choice are left out. TableGuestsModal.tsx (fetch and render only) and app/admin/page.tsx (a two-tab toggle) are not part of this model.
- **Wiring between components.** It is inconsistent in the source: the seating page passes `onTableAssignment` while the list declares `onDataChange`. `handleTableAssignment` and `handleTableChange` are therefore modelled as separate operations.
- **Server side.** Capacity enforcement and races between administrators are not implemented by the client and are not modelled.
- **The `Family` type** in lib/api.ts declares no `country` field, but app/page.tsx reads one. The model carries it as an optional field.
- **The `country` lookup in `openWhatsApp`.** The code computes it (falling back to Mexico) and then does not use it for the prefix: the `switch` on the raw country adds no prefix for an unknown country. The model follows the code (`CountryFor` and `WhatsAppNumber` are separate).
- TablesPage.StatsRoundTrip: the round trip restores the four integer counters. It does not restore the percentage value carried in, because the handler recomputes it.
- **Unassign percentage.** The unassign branch computes the percentage from the unclamped `assignedGuests - 1`, while the count itself is clamped at 0. The model keeps this as written.
- GuestForm.Submit: the optional text fields are modelled as strings, which is what the form always holds. The `?.` guard on them is therefore not modelled.
