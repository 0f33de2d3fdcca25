/**
 * The "add guest" tab of the administration page (app/admin/Addguesttab.tsx):
 * add one guest to an existing family or to a new one, after a chain of
 * checks, then clear the form; the family dropdown; and the "clear" button.
 */
module AddGuestTab {
  import opened Wrappers
  import opened Numbers
  import opened Text
  import opened GuestData

  /** Where the guest goes: `"existing"` or `"new"`. */
  datatype Mode = Existing | New

  /** The `newFamily` form. */
  datatype NewFamily = NewFamily(familyName: string, contactPerson: string, phone: string, email: string, country: string)

  const BlankNewFamily := NewFamily("", "", "", "", "MX")

  /** One entry of `getFamiliesForDropdown`. */
  datatype FamilyDropdownItem = FamilyDropdownItem(id: nat, displayName: string)

  /** The request of `guestManagementApi.addGuest`: either a family id or a new family, and the guest. */
  datatype AddGuestRequest = AddGuestRequest(familyId: Option<nat>, newFamily: Option<NewFamily>, guest: GuestPayload)

  /** The family fields `handleSubmit` requires in "new" mode; the e-mail is not checked. */
  predicate NewFamilyComplete(f: NewFamily) {
    !Blank(f.familyName) && !Blank(f.contactPerson) && !Blank(f.phone)
  }

  /**
   * The checks of `handleSubmit`, in their order, and the request it builds:
   * a blank guest name is refused first; then "existing" mode needs a
   * (truthy) family id and "new" mode the family name, contact person and
   * phone. The new family is sent as typed, without trimming.
   */
  function ValidateAddGuest(mode: Mode, selectedFamilyId: Option<nat>, newFamily: NewFamily, guest: GuestFields): (r: Result<AddGuestRequest, string>)
    ensures !HasName(guest) ==> r == Failure("El nombre del invitado es obligatorio")
    ensures HasName(guest) && mode == Existing ==>
      && (r.Success? <==> Truthy(selectedFamilyId))
      && (r.Failure? ==> r.error == "Debes seleccionar una familia")
    ensures HasName(guest) && mode == New ==>
      && (r.Success? <==> NewFamilyComplete(newFamily))
      && (r.Failure? ==> r.error == "Completa todos los campos obligatorios de la familia")
    ensures r.Success? ==>
      && r.value.guest == CleanGuest(guest)
      && (mode == Existing ==> r.value.familyId == selectedFamilyId && r.value.newFamily == None)
      && (mode == New ==> r.value.familyId == None && r.value.newFamily == Some(newFamily))
  {
    if !HasName(guest) then Failure("El nombre del invitado es obligatorio")
    else if mode == Existing && !Truthy(selectedFamilyId) then Failure("Debes seleccionar una familia")
    else if mode == New && !NewFamilyComplete(newFamily) then
      Failure("Completa todos los campos obligatorios de la familia")
    else
      Success(AddGuestRequest(
        if mode == Existing then selectedFamilyId else None,
        if mode == New then Some(newFamily) else None,
        CleanGuest(guest)))
  }

  /** A cleared form is always refused, and for its empty guest name. */
  lemma ClearedFormRefused(mode: Mode)
    ensures ValidateAddGuest(mode, None, BlankNewFamily, BlankGuest) == Failure("El nombre del invitado es obligatorio")
  {
  }

  /** `selectedFamilyId || ""`: the value the family dropdown shows. */
  function FamilySelectValue(id: Option<nat>): (r: string)
    ensures r == "" <==> !Truthy(id)
    ensures r == "" || IsCanonicalDecimal(r)
  {
    if Truthy(id) then NatToString(id.value) else ""
  }

  /** Showing a selection and reading it back gives the selection, except that a family id 0 reads back as none. */
  lemma FamilySelectionRoundTrip(id: Option<nat>)
    ensures ParseOptionValue(FamilySelectValue(id)) == if Truthy(id) then id else None
  {
    if Truthy(id) {
      ParseOfToString(id.value);
    }
  }

  /** Reading the dropdown and showing the result gives the option chosen, except for an option "0". */
  lemma FamilyOptionRoundTrip(value: string)
    requires value == "" || IsCanonicalDecimal(value)
    requires value != "0"
    ensures FamilySelectValue(ParseOptionValue(value)) == value
  {
  }

  /** The tab's state. */
  class AddGuestTab {
    var mode: Mode
    var families: seq<FamilyDropdownItem>
    var selectedFamilyId: Option<nat>
    var newFamily: NewFamily
    var guest: GuestFields
    var loading: bool
    var message: Option<Message>

    constructor ()
      ensures mode == Existing && families == [] && selectedFamilyId == None
      ensures newFamily == BlankNewFamily && guest == BlankGuest && !loading && message == None
    {
      mode := Existing;
      families := [];
      selectedFamilyId := None;
      newFamily := BlankNewFamily;
      guest := BlankGuest;
      loading := false;
      message := None;
    }

    /** The radio buttons. */
    method SetMode(m: Mode)
      modifies this
      ensures mode == m
      ensures families == old(families) && selectedFamilyId == old(selectedFamilyId) && newFamily == old(newFamily)
      ensures guest == old(guest) && loading == old(loading) && message == old(message)
    {
      mode := m;
    }

    /** The family dropdown's `onChange`. */
    method SelectFamily(value: string)
      requires value == "" || IsCanonicalDecimal(value)
      modifies this
      ensures selectedFamilyId == ParseOptionValue(value)
      ensures mode == old(mode) && families == old(families) && newFamily == old(newFamily)
      ensures guest == old(guest) && loading == old(loading) && message == old(message)
    {
      selectedFamilyId := ParseOptionValue(value);
    }

    /** `loadFamilies`, given how `getFamiliesForDropdown` settles. */
    method LoadFamilies(outcome: Settled<seq<FamilyDropdownItem>>)
      modifies this
      ensures outcome.Resolved? ==> families == outcome.value && message == old(message)
      ensures outcome.Rejected? ==> families == old(families) && message == Some(Message(ErrorMessage, "Error al cargar familias"))
      ensures mode == old(mode) && selectedFamilyId == old(selectedFamilyId) && newFamily == old(newFamily)
      ensures guest == old(guest) && loading == old(loading)
    {
      match outcome {
        case Resolved(data) =>
          families := data;
        case Rejected(_) =>
          message := Some(Message(ErrorMessage, "Error al cargar familias"));
      }
    }

    /**
     * The `try` block of `handleSubmit` once the checks passed: the guest
     * form (and, in "new" mode, the family form) is cleared and the families
     * reloaded after a success; everything typed stays after a failure.
     */
    method SettleAdd(outcome: Settled<string>, reload: Settled<seq<FamilyDropdownItem>>)
      modifies this
      ensures !loading && mode == old(mode) && selectedFamilyId == old(selectedFamilyId)
      ensures outcome.Resolved? ==>
        && guest == BlankGuest
        && newFamily == (if old(mode) == New then BlankNewFamily else old(newFamily))
        && (reload.Resolved? ==> families == reload.value && message == Some(SavedMessage(outcome.value, "agregado")))
        && (reload.Rejected? ==> families == old(families) && message == Some(Message(ErrorMessage, "Error al cargar familias")))
      ensures outcome.Rejected? ==>
        && guest == old(guest) && newFamily == old(newFamily) && families == old(families)
        && message == Some(Message(ErrorMessage, ErrorText(outcome.reason, "Error al agregar invitado")))
    {
      loading := true;
      match outcome {
        case Resolved(storedName) =>
          message := Some(SavedMessage(storedName, "agregado"));
          guest := BlankGuest;
          if mode == New {
            newFamily := BlankNewFamily;
          }
          LoadFamilies(reload);
        case Rejected(reason) =>
          message := Some(Message(ErrorMessage, ErrorText(reason, "Error al agregar invitado")));
      }
      loading := false;
    }

    /**
     * `handleSubmit`, given how `addGuest` settles (with the name of the
     * guest the server stored) and how the reload of the families settles.
     * Returns the request sent, if the checks let one through.
     */
    method HandleSubmit(outcome: Settled<string>, reload: Settled<seq<FamilyDropdownItem>>) returns (sent: Option<AddGuestRequest>)
      modifies this
      ensures var v := ValidateAddGuest(old(mode), old(selectedFamilyId), old(newFamily), old(guest));
        v.Failure? ==>
          && sent == None && message == Some(Message(ErrorMessage, v.error))
          && guest == old(guest) && newFamily == old(newFamily) && families == old(families)
          && loading == old(loading)
      ensures var v := ValidateAddGuest(old(mode), old(selectedFamilyId), old(newFamily), old(guest));
        v.Success? ==> sent == Some(v.value) && !loading
      ensures sent.Some? && outcome.Resolved? ==>
        && guest == BlankGuest
        && newFamily == (if old(mode) == New then BlankNewFamily else old(newFamily))
        && (reload.Resolved? ==> families == reload.value && message == Some(SavedMessage(outcome.value, "agregado")))
        && (reload.Rejected? ==> families == old(families) && message == Some(Message(ErrorMessage, "Error al cargar familias")))
      ensures sent.Some? && outcome.Rejected? ==>
        && guest == old(guest) && newFamily == old(newFamily) && families == old(families)
        && message == Some(Message(ErrorMessage, ErrorText(outcome.reason, "Error al agregar invitado")))
      ensures mode == old(mode) && selectedFamilyId == old(selectedFamilyId)
    {
      message := None;
      var v := ValidateAddGuest(mode, selectedFamilyId, newFamily, guest);
      if v.Failure? {
        message := Some(Message(ErrorMessage, v.error));
        return None;
      }
      sent := Some(v.value);
      SettleAdd(outcome, reload);
    }

    /** `handleClear`: everything typed is cleared; the mode and the loaded families stay. */
    method HandleClear()
      modifies this
      ensures guest == BlankGuest && newFamily == BlankNewFamily && selectedFamilyId == None && message == None
      ensures mode == old(mode) && families == old(families) && loading == old(loading)
    {
      guest := BlankGuest;
      newFamily := BlankNewFamily;
      selectedFamilyId := None;
      message := None;
    }
  }
}
