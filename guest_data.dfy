/**
 * The guest record the three guest forms edit (app/components/GuestForm.tsx,
 * app/admin/Addguesttab.tsx, app/admin/Editguesttab.tsx) and the cleaned
 * payload each of them sends: the name trimmed, and optional text that trims
 * to nothing left out.
 */
module GuestData {
  import opened Wrappers
  import opened Text

  /** The text fields and the child flag of one guest, as the form holds them. */
  datatype GuestFields = GuestFields(name: string, isChild: bool, dietaryRestrictions: string, notes: string)

  /** `{ name: '', isChild: false, dietaryRestrictions: '', notes: '' }`. */
  const BlankGuest := GuestFields("", false, "", "")

  /** One guest as sent to the server. */
  datatype GuestPayload = GuestPayload(name: string, isChild: bool, dietaryRestrictions: Option<string>, notes: Option<string>)

  /** A guest counts as filled in when its trimmed name is not empty (`g.name.trim() !== ''`). */
  predicate HasName(g: GuestFields) {
    !Blank(g.name)
  }

  /** `{ name: g.name.trim(), isChild, dietaryRestrictions: g.dietaryRestrictions.trim() || undefined, notes: … }`. */
  function CleanGuest(g: GuestFields): (p: GuestPayload)
    ensures p.name == Trim(g.name)
    ensures p.name != "" <==> HasName(g)
    ensures p.isChild == g.isChild
    ensures p.dietaryRestrictions.None? <==> Blank(g.dietaryRestrictions)
    ensures p.notes.None? <==> Blank(g.notes)
    ensures p.dietaryRestrictions.Some? ==> p.dietaryRestrictions.value == Trim(g.dietaryRestrictions)
    ensures p.notes.Some? ==> p.notes.value == Trim(g.notes)
  {
    GuestPayload(Trim(g.name), g.isChild, TrimmedOrUndefined(g.dietaryRestrictions), TrimmedOrUndefined(g.notes))
  }

  /** The form fields that show a payload again: a missing text becomes the empty field. */
  function FieldsOf(p: GuestPayload): (g: GuestFields)
    ensures g.name == p.name && g.isChild == p.isChild
  {
    GuestFields(p.name, p.isChild, p.dietaryRestrictions.GetOr(""), p.notes.GetOr(""))
  }

  /** Cleaning is a projection: a payload loaded back into the form and sent again is sent unchanged. */
  lemma CleanGuestRoundTrip(g: GuestFields)
    ensures CleanGuest(FieldsOf(CleanGuest(g))) == CleanGuest(g)
  {
    TrimOfTrimmed(g.name);
    TrimOfTrimmed(g.dietaryRestrictions);
    TrimOfTrimmed(g.notes);
  }

  /** The banner of the admin tabs: `{ type: "success" | "error", text }`. */
  datatype MessageKind = SuccessMessage | ErrorMessage
  datatype Message = Message(kind: MessageKind, text: string)

  /**
   * The success banner of the admin tabs, naming the guest as the server
   * stored it: `¡Invitado "<name>" <action> exitosamente!`.
   */
  function SavedMessage(storedName: string, action: string): (m: Message)
    ensures m.kind == SuccessMessage
    ensures exists k :: OccursAt(m.text, storedName, k)
  {
    var text := "¡Invitado \"" + storedName + "\" " + action + " exitosamente!";
    assert OccursAt(text, storedName, 11);
    Message(SuccessMessage, text)
  }

  /** `error.message || fallback` on a caught value: an `Error` with an empty message also falls back. */
  function ErrorText(reason: Thrown, fallback: string): (r: string)
    ensures reason.ThrownError? && reason.message != "" ==> r == reason.message
    ensures reason.ThrownValue? || reason.message == "" ==> r == fallback
  {
    var m := reason.MessageOr("");
    if m == "" then fallback else m
  }
}
