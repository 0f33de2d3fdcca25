/**
 * The confirmation form a family fills in (app/components/GuestForm.tsx):
 * one blank entry per place, edits that rebuild the list, the guests that
 * count as filled in, and the request the form submits.
 */
module GuestForm {
  import opened Wrappers
  import opened Numbers
  import opened Text
  import opened Lists
  import opened GuestData

  /** `Array.from({ length: maxGuests }, () => blank)`: one blank adult per place (none for a negative count). */
  function InitialGuests(maxGuests: int): (r: seq<GuestFields>)
    ensures |r| == Max(0, maxGuests)
    ensures forall i :: 0 <= i < |r| ==> r[i] == BlankGuest
  {
    seq(Max(0, maxGuests), _ => BlankGuest)
  }

  /** The field an input writes through `updateGuest(index, field, value)`. */
  datatype GuestEdit = SetName(name: string) | SetIsChild(isChild: bool)
                     | SetDietaryRestrictions(text: string) | SetNotes(text: string)

  /** `{ ...guest, [field]: value }`. */
  function ApplyEdit(g: GuestFields, e: GuestEdit): GuestFields {
    match e
    case SetName(s) => g.(name := s)
    case SetIsChild(b) => g.(isChild := b)
    case SetDietaryRestrictions(s) => g.(dietaryRestrictions := s)
    case SetNotes(s) => g.(notes := s)
  }

  /** `guests.map((guest, i) => i === index ? { ...guest, [field]: value } : guest)`. */
  function UpdateGuest(guests: seq<GuestFields>, index: int, e: GuestEdit): (r: seq<GuestFields>)
    ensures |r| == |guests|
    ensures forall i :: 0 <= i < |guests| && i != index ==> r[i] == guests[i]
    ensures 0 <= index < |guests| ==> r[index] == ApplyEdit(guests[index], e)
    ensures !(0 <= index < |guests|) ==> r == guests
  {
    seq(|guests|, i requires 0 <= i < |guests| => if i == index then ApplyEdit(guests[i], e) else guests[i])
  }

  /** `guests.filter(g => g.name.trim() !== '')`. */
  function ValidGuests(guests: seq<GuestFields>): (r: seq<GuestFields>)
    ensures forall i :: 0 <= i < |r| ==> HasName(r[i])
    ensures forall i :: 0 <= i < |guests| && HasName(guests[i]) ==> guests[i] in r
    ensures IsSublist(r, guests)
    ensures forall g :: multiset(r)[g] == if HasName(g) then multiset(guests)[g] else 0
  {
    var r := Filter(guests, HasName);
    assert forall g :: multiset(r)[g] == if HasName(g) then multiset(guests)[g] else 0 by {
      forall g { FilterCount(guests, HasName, g); }
    }
    r
  }

  /** `filledGuests`. */
  function FilledGuests(guests: seq<GuestFields>): (n: nat)
    ensures n <= |guests|
    ensures n == 0 <==> forall i :: 0 <= i < |guests| ==> !HasName(guests[i])
  {
    var v := ValidGuests(guests);
    assert |v| > 0 ==> v[0] in guests;
    |v|
  }

  /** The `CompleteFormRequest` handed to `onSubmit`. */
  datatype FormRequest = FormRequest(guests: seq<GuestPayload>, familyMessage: Option<string>)

  /**
   * What `handleSubmit` sends: nothing when no guest is filled in; otherwise
   * the filled-in guests, in their order, cleaned, and the family message
   * trimmed (left out when blank).
   */
  function BuildRequest(guests: seq<GuestFields>, familyMessage: string): (r: Option<FormRequest>)
    ensures r.None? <==> FilledGuests(guests) == 0
    ensures r.Some? ==>
      && |r.value.guests| == FilledGuests(guests)
      && (forall i :: 0 <= i < |r.value.guests| ==>
            r.value.guests[i] == CleanGuest(ValidGuests(guests)[i]) && r.value.guests[i].name != "")
      && r.value.familyMessage == TrimmedOrUndefined(familyMessage)
  {
    var v := ValidGuests(guests);
    if |v| == 0 then None
    else Some(FormRequest(seq(|v|, i requires 0 <= i < |v| => CleanGuest(v[i])), TrimmedOrUndefined(familyMessage)))
  }

  /** The names sent are trimmed already: trimming them again changes nothing. */
  lemma SubmittedNamesTrimmed(guests: seq<GuestFields>, familyMessage: string, i: nat)
    requires BuildRequest(guests, familyMessage).Some?
    requires i < |BuildRequest(guests, familyMessage).value.guests|
    ensures var n := BuildRequest(guests, familyMessage).value.guests[i].name;
      Trim(n) == n && n != ""
  {
    TrimOfTrimmed(ValidGuests(guests)[i].name);
  }

  /** Editing anything but a name never changes how many guests count as filled in. */
  lemma NonNameEditKeepsFilled(guests: seq<GuestFields>, index: int, e: GuestEdit)
    requires !e.SetName?
    ensures FilledGuests(UpdateGuest(guests, index, e)) == FilledGuests(guests)
  {
    FilterSameVerdicts(UpdateGuest(guests, index, e), guests, HasName);
  }

  // ------------------------------------------------------------- the form

  /** The component's state: the guest list, the family message and the `submitting` flag. */
  datatype FormState = FormState(guests: seq<GuestFields>, familyMessage: string, submitting: bool)

  function InitialForm(maxGuests: int): FormState {
    FormState(InitialGuests(maxGuests), "", false)
  }

  /** The submit button is disabled while saving and while nobody is filled in. */
  predicate SubmitDisabled(s: FormState) {
    s.submitting || FilledGuests(s.guests) == 0
  }

  /** "Guardando..." while saving, else "Confirmar n Invitado(s)". */
  function SubmitCaption(s: FormState): (r: string)
    ensures s.submitting <==> r == "Guardando..."
    ensures r != ""
    ensures !s.submitting ==> (r[|r| - 1] == 's' <==> FilledGuests(s.guests) != 1)
  {
    if s.submitting then "Guardando..."
    else
      var n := FilledGuests(s.guests);
      var r := "Confirmar " + IntToString(n) + " Invitado" + (if n != 1 then "s" else "");
      assert r[0] == 'C';
      r
  }

  /** A fresh form cannot be submitted: every entry starts blank. */
  lemma FreshFormDisabled(maxGuests: int)
    ensures SubmitDisabled(InitialForm(maxGuests))
  {
  }

  /** When not saving, the button is enabled exactly when `handleSubmit` would send a request. */
  lemma ButtonEnabledIffSendable(s: FormState)
    requires !s.submitting
    ensures !SubmitDisabled(s) <==> BuildRequest(s.guests, s.familyMessage).Some?
  {
  }

  /** The result of `handleSubmit`: the new state, what `onSubmit` received, and the `alert` shown. */
  datatype Submission = Submission(state: FormState, sent: Option<FormRequest>, alerted: Option<string>)

  /**
   * `handleSubmit`, with the settlement of `onSubmit` as input. With no
   * guest filled in it alerts and sends nothing; otherwise it sends the
   * request, alerts the error if `onSubmit` throws, and ends not submitting.
   */
  function Submit(s: FormState, outcome: Settled<()>): (r: Submission)
    ensures r.state.guests == s.guests && r.state.familyMessage == s.familyMessage
    ensures r.sent == BuildRequest(s.guests, s.familyMessage)
    ensures r.sent.None? ==> r.state == s && r.alerted == Some("Por favor ingresa al menos un invitado")
    ensures r.sent.Some? ==> !r.state.submitting
    ensures r.sent.Some? ==> (r.alerted.None? <==> outcome.Resolved?)
  {
    var req := BuildRequest(s.guests, s.familyMessage);
    if req.None? then Submission(s, None, Some("Por favor ingresa al menos un invitado"))
    else
      var alerted :=
        match outcome
        case Resolved(_) => None
        case Rejected(reason) =>
          var errorMessage := reason.MessageOr("Error desconocido");
          Some(if errorMessage == "" then "Error al guardar los datos. Por favor intenta de nuevo." else errorMessage);
      Submission(s.(submitting := false), req, alerted)
  }

  /** A failed submission alerts the error's message, "Error desconocido" for a non-`Error`, and the generic text for an empty message. */
  lemma SubmitFailureMessage(s: FormState, reason: Thrown)
    requires FilledGuests(s.guests) > 0
    ensures Submit(s, Rejected(reason)).alerted ==
      Some(if reason.ThrownValue? then "Error desconocido"
           else if reason.message == "" then "Error al guardar los datos. Por favor intenta de nuevo."
           else reason.message)
  {
  }
}
