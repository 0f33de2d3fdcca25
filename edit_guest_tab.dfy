/**
 * The "edit guest" tab of the administration page (app/admin/Editguesttab.tsx):
 * a case-insensitive search over the loaded guests, choosing a guest to edit,
 * the checks and the request of the update, and the "cancel" button.
 */
module EditGuestTab {
  import opened Wrappers
  import opened Text
  import opened Lists
  import opened GuestData

  /** One guest as `searchGuests` delivers it. */
  datatype GuestSearchResult = GuestSearchResult(
    id: int, name: string, familyName: string, isChild: bool,
    dietaryRestrictions: Option<string>, notes: Option<string>)

  /** `g.name.toLowerCase().includes(term) || g.familyName.toLowerCase().includes(term)` with `term` lower-cased. */
  predicate MatchesTerm(g: GuestSearchResult, searchTerm: string) {
    var term := Lower(searchTerm);
    Contains(Lower(g.name), term) || Contains(Lower(g.familyName), term)
  }

  /** The filter callback for one search term. */
  function Matching(searchTerm: string): GuestSearchResult -> bool {
    g => MatchesTerm(g, searchTerm)
  }

  /**
   * `filteredGuests` as the search effect computes it: every guest for a
   * blank term; otherwise the guests whose name or family name contains the
   * term, ignoring case. The term itself is not trimmed.
   */
  function FilterGuests(guests: seq<GuestSearchResult>, searchTerm: string): (r: seq<GuestSearchResult>)
    ensures IsSublist(r, guests)
    ensures Blank(searchTerm) ==> r == guests
    ensures !Blank(searchTerm) ==>
      && (forall i :: 0 <= i < |r| ==> MatchesTerm(r[i], searchTerm))
      && (forall i :: 0 <= i < |guests| && MatchesTerm(guests[i], searchTerm) ==> guests[i] in r)
      && (forall g :: multiset(r)[g] == if MatchesTerm(g, searchTerm) then multiset(guests)[g] else 0)
  {
    if Blank(searchTerm) then
      SublistOfItself(guests);
      guests
    else
      var r := Filter(guests, Matching(searchTerm));
      assert forall g :: multiset(r)[g] == if MatchesTerm(g, searchTerm) then multiset(guests)[g] else 0 by {
        forall g { FilterCount(guests, Matching(searchTerm), g); }
      }
      r
  }

  /** Lower-casing leaves blank strings blank and non-blank strings non-blank. */
  lemma LowerKeepsBlank(s: string)
    ensures Blank(Lower(s)) <==> Blank(s)
  {
    if !Blank(s) {
      var i :| 0 <= i < |s| && !IsWhitespace(s[i]);
      assert !IsWhitespace(Lower(s)[i]);
    }
  }

  /** The search ignores the case of the term. */
  lemma SearchIgnoresCase(guests: seq<GuestSearchResult>, searchTerm: string)
    ensures FilterGuests(guests, Lower(searchTerm)) == FilterGuests(guests, searchTerm)
  {
    LowerKeepsBlank(searchTerm);
    LowerIdempotent(searchTerm);
    FilterCongruent(guests, Matching(Lower(searchTerm)), Matching(searchTerm));
  }

  /** A term with a leading space is searched for as typed: "Ana" is not found by " ana". */
  lemma TermNotTrimmed()
    ensures FilterGuests([GuestSearchResult(1, "Ana", "Ruiz", false, None, None)], " ana") == []
  {
    var g := GuestSearchResult(1, "Ana", "Ruiz", false, None, None);
    assert Lower("Ana") == "ana" && Lower("Ruiz") == "ruiz" && Lower(" ana") == " ana";
    assert !Contains("ana", " ana");
    assert !Contains("ruiz", " ana") by {
      assert " ana"[0] != "ruiz"[0];
    }
    assert !MatchesTerm(g, " ana");
    assert !Blank(" ana") by {
      assert !IsWhitespace(" ana"[1]);
    }
  }

  /** `guests.find(g => g.id === id)`. */
  function FindGuest(guests: seq<GuestSearchResult>, id: int): (r: Option<GuestSearchResult>)
    ensures r.Some? ==> r.value in guests && r.value.id == id
    ensures r.Some? ==> exists i :: 0 <= i < |guests| && guests[i] == r.value && forall j :: 0 <= j < i ==> guests[j].id != id
    ensures r.None? <==> forall i :: 0 <= i < |guests| ==> guests[i].id != id
  {
    if guests == [] then None
    else if guests[0].id == id then Some(guests[0])
    else
      assert forall i :: 1 <= i < |guests| ==> guests[i] == guests[1..][i - 1];
      FindGuest(guests[1..], id)
  }

  /** `Number(value)` on the guest list's option values: the empty placeholder reads as 0. */
  function OptionNumber(value: string): (n: nat)
    requires value == "" || IsCanonicalDecimal(value)
    ensures value == "" ==> n == 0
    ensures value != "" ==> NatToString(n) == value
  {
    if value == "" then 0
    else
      ToStringOfParse(value);
      ParseDecimal(value)
  }

  /** The edit form shown for a guest: missing text becomes the empty field. */
  function EditFieldsOf(g: GuestSearchResult): (f: GuestFields)
    ensures f.name == g.name && f.isChild == g.isChild
    ensures f.dietaryRestrictions == g.dietaryRestrictions.GetOr("") && f.notes == g.notes.GetOr("")
  {
    GuestFields(g.name, g.isChild, g.dietaryRestrictions.GetOr(""), g.notes.GetOr(""))
  }

  /** Text a guest record holds already clean: trimmed, and absent rather than blank. */
  predicate CleanText(o: Option<string>) {
    o.Some? ==> o.value != "" && Trim(o.value) == o.value
  }

  /** Clean optional text survives being shown in a field and cleaned again. */
  lemma CleanTextKept(o: Option<string>)
    requires CleanText(o)
    ensures TrimmedOrUndefined(o.GetOr("")) == o
  {
    if o.None? {
      assert Blank("");
    }
  }

  /** Saving a guest whose stored data is already clean, without editing it, sends that data back unchanged. */
  lemma UnchangedResubmit(g: GuestSearchResult)
    requires g.name != "" && Trim(g.name) == g.name
    requires CleanText(g.dietaryRestrictions) && CleanText(g.notes)
    ensures CleanGuest(EditFieldsOf(g)) == GuestPayload(g.name, g.isChild, g.dietaryRestrictions, g.notes)
  {
    CleanTextKept(g.dietaryRestrictions);
    CleanTextKept(g.notes);
  }

  /** The request of `updateGuest`: the id of the chosen guest and the cleaned fields. */
  datatype UpdateRequest = UpdateRequest(guestId: int, guest: GuestPayload)

  /** The checks of `handleSubmit`, in their order: a guest must be chosen, then its name must not be blank. */
  function ValidateEdit(selectedGuest: Option<GuestSearchResult>, editData: GuestFields): (r: Result<UpdateRequest, string>)
    ensures selectedGuest.None? ==> r == Failure("Debes seleccionar un invitado")
    ensures selectedGuest.Some? ==> (r.Success? <==> HasName(editData))
    ensures selectedGuest.Some? && r.Failure? ==> r.error == "El nombre del invitado es obligatorio"
    ensures r.Success? ==> r.value == UpdateRequest(selectedGuest.value.id, CleanGuest(editData))
  {
    if selectedGuest.None? then Failure("Debes seleccionar un invitado")
    else if !HasName(editData) then Failure("El nombre del invitado es obligatorio")
    else Success(UpdateRequest(selectedGuest.value.id, CleanGuest(editData)))
  }

  /** The tab's state. The search effect is folded into every change of `guests` or `searchTerm`. */
  class EditGuestTab {
    var guests: seq<GuestSearchResult>
    var filteredGuests: seq<GuestSearchResult>
    var searchTerm: string
    var selectedGuest: Option<GuestSearchResult>
    var editData: GuestFields
    var loading: bool
    var message: Option<Message>

    /** The list shown is always the search over the loaded guests. */
    predicate Valid()
      reads this
    {
      filteredGuests == FilterGuests(guests, searchTerm)
    }

    constructor ()
      ensures Valid()
      ensures guests == [] && searchTerm == "" && selectedGuest == None
      ensures editData == BlankGuest && !loading && message == None
    {
      guests := [];
      filteredGuests := [];
      searchTerm := "";
      selectedGuest := None;
      editData := BlankGuest;
      loading := false;
      message := None;
    }

    /** Typing in the search box, and the effect that filters the list again. */
    method SetSearchTerm(term: string)
      modifies this
      ensures Valid()
      ensures searchTerm == term && guests == old(guests)
      ensures selectedGuest == old(selectedGuest) && editData == old(editData)
      ensures loading == old(loading) && message == old(message)
    {
      searchTerm := term;
      filteredGuests := FilterGuests(guests, searchTerm);
    }

    /** `loadGuests`, given how `searchGuests` settles; the search effect then filters the new list. */
    method LoadGuests(outcome: Settled<seq<GuestSearchResult>>)
      requires Valid()
      modifies this
      ensures Valid()
      ensures outcome.Resolved? ==> guests == outcome.value && message == old(message)
      ensures outcome.Rejected? ==> guests == old(guests) && message == Some(Message(ErrorMessage, "Error al cargar invitados"))
      ensures searchTerm == old(searchTerm) && selectedGuest == old(selectedGuest)
      ensures editData == old(editData) && loading == old(loading)
    {
      match outcome {
        case Resolved(data) =>
          guests := data;
          filteredGuests := FilterGuests(guests, searchTerm);
        case Rejected(_) =>
          message := Some(Message(ErrorMessage, "Error al cargar invitados"));
      }
    }

    /** `handleSelectGuest`: the guest becomes the one edited, its data fills the form, the banner goes. */
    method HandleSelectGuest(g: GuestSearchResult)
      modifies this
      ensures selectedGuest == Some(g) && editData == EditFieldsOf(g) && message == None
      ensures guests == old(guests) && filteredGuests == old(filteredGuests) && searchTerm == old(searchTerm)
      ensures loading == old(loading)
    {
      selectedGuest := Some(g);
      editData := GuestFields(g.name, g.isChild, g.dietaryRestrictions.GetOr(""), g.notes.GetOr(""));
      message := None;
    }

    /** The guest list's `onChange`: the guest with the option's id, looked up among all loaded guests. */
    method ChooseGuest(value: string)
      requires value == "" || IsCanonicalDecimal(value)
      modifies this
      ensures var found := FindGuest(old(guests), OptionNumber(value));
        && (found.Some? ==> selectedGuest == found && editData == EditFieldsOf(found.value) && message == None)
        && (found.None? ==> selectedGuest == old(selectedGuest) && editData == old(editData) && message == old(message))
      ensures guests == old(guests) && filteredGuests == old(filteredGuests) && searchTerm == old(searchTerm)
      ensures loading == old(loading)
    {
      var found := FindGuest(guests, OptionNumber(value));
      if found.Some? {
        HandleSelectGuest(found.value);
      }
    }

    /**
     * `handleSubmit`, given how `updateGuest` settles (with the guest as
     * the server stored it) and how the reload of the guests settles.
     * Returns the request sent, if the checks let one through.
     */
    method HandleSubmit(outcome: Settled<GuestPayload>, reload: Settled<seq<GuestSearchResult>>) returns (sent: Option<UpdateRequest>)
      requires Valid()
      modifies this
      ensures Valid()
      ensures var v := ValidateEdit(old(selectedGuest), old(editData));
        v.Failure? ==>
          && sent == None && message == Some(Message(ErrorMessage, v.error))
          && guests == old(guests) && selectedGuest == old(selectedGuest) && loading == old(loading)
      ensures var v := ValidateEdit(old(selectedGuest), old(editData));
        v.Success? ==> sent == Some(v.value) && !loading
      ensures sent.Some? && outcome.Resolved? ==>
        && selectedGuest == Some(old(selectedGuest).value.(
             name := outcome.value.name, isChild := outcome.value.isChild,
             dietaryRestrictions := outcome.value.dietaryRestrictions, notes := outcome.value.notes))
        && (reload.Resolved? ==> guests == reload.value && message == Some(SavedMessage(outcome.value.name, "actualizado")))
        && (reload.Rejected? ==> guests == old(guests) && message == Some(Message(ErrorMessage, "Error al cargar invitados")))
      ensures sent.Some? && outcome.Rejected? ==>
        && guests == old(guests) && selectedGuest == old(selectedGuest)
        && message == Some(Message(ErrorMessage, ErrorText(outcome.reason, "Error al actualizar invitado")))
      ensures editData == old(editData) && searchTerm == old(searchTerm)
    {
      message := None;
      var v := ValidateEdit(selectedGuest, editData);
      if v.Failure? {
        message := Some(Message(ErrorMessage, v.error));
        return None;
      }
      loading := true;
      sent := Some(v.value);
      match outcome {
        case Resolved(stored) =>
          message := Some(SavedMessage(stored.name, "actualizado"));
          LoadGuests(reload);
          selectedGuest := Some(selectedGuest.value.(
            name := stored.name, isChild := stored.isChild,
            dietaryRestrictions := stored.dietaryRestrictions, notes := stored.notes));
        case Rejected(reason) =>
          message := Some(Message(ErrorMessage, ErrorText(reason, "Error al actualizar invitado")));
      }
      loading := false;
    }

    /** `handleCancel`: nothing is selected, the form and the search are cleared, and the full list shows again. */
    method HandleCancel()
      requires Valid()
      modifies this
      ensures Valid()
      ensures selectedGuest == None && editData == BlankGuest && searchTerm == "" && message == None
      ensures filteredGuests == guests
      ensures guests == old(guests) && loading == old(loading)
    {
      selectedGuest := None;
      editData := BlankGuest;
      searchTerm := "";
      message := None;
      filteredGuests := FilterGuests(guests, searchTerm);
    }
  }
}
