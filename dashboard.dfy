/**
 * The administration dashboard (app/page.tsx): the table of invited families
 * with its summary counters, the WhatsApp number an invitation is sent to,
 * marking and deleting families, and the "create invitation" modal.
 */
module Dashboard {
  import opened Wrappers
  import opened Text
  import opened Lists

  // -------------------------------------------------------------- countries

  datatype Country = Country(code: string, name: string, prefix: string)

  /** The `countries` table: Mexico first, which is also the fallback. */
  const Countries: seq<Country> := [
    Country("MX", "México", "+52"),
    Country("US", "Estados Unidos", "+1"),
    Country("ES", "España", "+34")
  ]

  /** The index of the first country with that code (`countries.find`), or -1. */
  function IndexOfCountry(code: Option<string>): (k: int)
    ensures -1 <= k < |Countries|
    ensures k >= 0 ==> Some(Countries[k].code) == code
    ensures k == -1 <==> forall i :: 0 <= i < |Countries| ==> Some(Countries[i].code) != code
  {
    if code == Some("MX") then 0
    else if code == Some("US") then 1
    else if code == Some("ES") then 2
    else -1
  }

  /** `countries.find(c => c.code === code) || countries[0]`. */
  function CountryFor(code: Option<string>): (c: Country)
    ensures c in Countries
    ensures IndexOfCountry(code) >= 0 ==> Some(c.code) == code
    ensures IndexOfCountry(code) < 0 ==> c == Countries[0]
  {
    var k := IndexOfCountry(code);
    if k >= 0 then Countries[k] else Countries[0]
  }

  /** The prefix shown beside the phone field: `countries.find(…)?.prefix || "+52"`. */
  function PrefixLabel(code: string): (r: string)
    ensures r == CountryFor(Some(code)).prefix
  {
    var k := IndexOfCountry(Some(code));
    if k >= 0 && Countries[k].prefix != "" then Countries[k].prefix else "+52"
  }

  // ---------------------------------------------------------- phone number

  /**
   * The number `openWhatsApp` dials: the digits of `phone`, preceded by the
   * country calling code when the number has the national length of a known
   * country (10 digits for MX and US, 9 for ES).
   */
  function WhatsAppNumber(phone: string, country: Option<string>): (r: string)
    ensures AllDigits(r)
    ensures |r| >= |StripNonDigits(phone)| && r[|r| - |StripNonDigits(phone)|..] == StripNonDigits(phone)
  {
    var d := StripNonDigits(phone);
    var r :=
      if country == Some("MX") && |d| == 10 then "52" + d
      else if country == Some("US") && |d| == 10 then "1" + d
      else if country == Some("ES") && |d| == 9 then "34" + d
      else d;
    assert r[|r| - |d|..] == d;
    r
  }

  /** `openWhatsApp`'s `let formattedPhone` and its `switch (family.country)`. */
  method FormatPhone(phone: string, country: Option<string>) returns (formattedPhone: string)
    ensures formattedPhone == WhatsAppNumber(phone, country)
  {
    formattedPhone := StripNonDigits(phone);
    match country {
      case Some("MX") =>
        if |formattedPhone| == 10 {
          formattedPhone := "52" + formattedPhone;
        }
      case Some("US") =>
        if |formattedPhone| == 10 {
          formattedPhone := "1" + formattedPhone;
        }
      case Some("ES") =>
        if |formattedPhone| == 9 {
          formattedPhone := "34" + formattedPhone;
        }
      case _ =>
    }
  }

  /** The national number length at which each country of the table gets its calling code. */
  function NationalLength(c: Country): nat {
    if c.code == "ES" then 9 else 10
  }

  /** The digits put in front of a national number are the country's `prefix` without its '+'. */
  lemma PrefixIsCallingCode(phone: string, i: nat)
    requires i < |Countries|
    requires |StripNonDigits(phone)| == NationalLength(Countries[i])
    ensures WhatsAppNumber(phone, Some(Countries[i].code)) == Countries[i].prefix[1..] + StripNonDigits(phone)
  {
  }

  /** Numbers of any other length, and countries outside the table, are dialled as bare digits. */
  lemma OtherNumbersUnprefixed(phone: string, country: Option<string>)
    requires IndexOfCountry(country) < 0
          || |StripNonDigits(phone)| != NationalLength(Countries[IndexOfCountry(country)])
    ensures WhatsAppNumber(phone, country) == StripNonDigits(phone)
  {
  }

  /** Formatting an already formatted number changes nothing: the calling code moves it off the national length. */
  lemma FormatIdempotent(phone: string, country: Option<string>)
    ensures WhatsAppNumber(WhatsAppNumber(phone, country), country) == WhatsAppNumber(phone, country)
  {
    var r := WhatsAppNumber(phone, country);
    assert StripNonDigits(r) == r;
  }

  // -------------------------------------------------------------- families

  /** The fields of a family the dashboard reads (`Family` in lib/api.ts, plus the `country` it is read with). */
  datatype Family = Family(
    id: int,
    familyName: string,
    contactPerson: string,
    email: Option<string>,
    phone: string,
    country: Option<string>,
    maxGuests: int,
    invitationCode: string,
    confirmedGuests: int,
    status: string)

  /** `families.map(f => f.id === familyId ? updatedFamily : f)`. */
  function ReplaceFamily(families: seq<Family>, familyId: int, updated: Family): (r: seq<Family>)
    ensures |r| == |families|
    ensures forall i :: 0 <= i < |families| && families[i].id != familyId ==> r[i] == families[i]
    ensures forall i :: 0 <= i < |families| && families[i].id == familyId ==> r[i] == updated
  {
    seq(|families|, i requires 0 <= i < |families| => if families[i].id == familyId then updated else families[i])
  }

  /** Replacing with the server's copy of the same family twice gives what replacing once gave. */
  lemma ReplaceFamilyIdempotent(families: seq<Family>, familyId: int, updated: Family)
    requires updated.id == familyId
    ensures ReplaceFamily(ReplaceFamily(families, familyId, updated), familyId, updated) == ReplaceFamily(families, familyId, updated)
  {
  }

  /** The filter callback `f => f.id !== familyId`. */
  function OtherThan(familyId: int): Family -> bool {
    (f: Family) => f.id != familyId
  }

  /** `families.filter(f => f.id !== familyId)`. */
  function RemoveFamily(families: seq<Family>, familyId: int): (r: seq<Family>)
    ensures forall i :: 0 <= i < |r| ==> r[i].id != familyId
    ensures forall i :: 0 <= i < |families| && families[i].id != familyId ==> families[i] in r
    ensures IsSublist(r, families)
    ensures forall f :: multiset(r)[f] == if f.id != familyId then multiset(families)[f] else 0
  {
    var r := Filter(families, OtherThan(familyId));
    assert forall f :: multiset(r)[f] == if f.id != familyId then multiset(families)[f] else 0 by {
      forall f { FilterCount(families, OtherThan(familyId), f); }
    }
    r
  }

  /** Deleting an id nobody has leaves the list as it is. */
  lemma DeleteAbsentFamily(families: seq<Family>, familyId: int)
    requires forall i :: 0 <= i < |families| ==> families[i].id != familyId
    ensures RemoveFamily(families, familyId) == families
  {
    FilterKeepsAll(families, OtherThan(familyId));
  }

  /** A family just created and then deleted leaves the list as it was, if its id was new. */
  lemma CreateThenDelete(families: seq<Family>, created: Family)
    requires forall i :: 0 <= i < |families| ==> families[i].id != created.id
    ensures RemoveFamily(families + [created], created.id) == families
  {
    var keep := OtherThan(created.id);
    FilterAppend(families, [created], keep);
    FilterKeepsAll(families, keep);
    assert Filter([created], keep) == [];
  }

  // -------------------------------------------------------------- summary

  predicate IsConfirmed(f: Family) {
    f.status == "confirmed"
  }

  predicate IsPending(f: Family) {
    f.status == "pending"
  }

  /** `families.reduce((sum, f) => sum + f.confirmedGuests, 0)`. */
  function ConfirmedGuests(families: seq<Family>): int {
    if families == [] then 0 else ConfirmedGuests(families[..|families| - 1]) + families[|families| - 1].confirmedGuests
  }

  /** The four counters: families, confirmed, pending and confirmed guests. */
  datatype Summary = Summary(total: nat, confirmed: nat, pending: nat, guests: int)

  function Summarize(families: seq<Family>): (s: Summary)
    ensures s.confirmed + s.pending <= s.total == |families|
  {
    DisjointFiltersBounded(families, IsConfirmed, IsPending);
    Summary(|families|, |Filter(families, IsConfirmed)|, |Filter(families, IsPending)|, ConfirmedGuests(families))
  }

  /** Appending a created family adds one family and its confirmed guests, and counts it by its status. */
  lemma {:induction false} SummaryAfterCreate(families: seq<Family>, created: Family)
    ensures var before, after := Summarize(families), Summarize(families + [created]);
      && after.total == before.total + 1
      && after.confirmed == before.confirmed + (if IsConfirmed(created) then 1 else 0)
      && after.pending == before.pending + (if IsPending(created) then 1 else 0)
      && after.guests == before.guests + created.confirmedGuests
  {
    FilterAppend(families, [created], IsConfirmed);
    FilterAppend(families, [created], IsPending);
    assert (families + [created])[..|families|] == families;
  }

  /** The guest total is a sum over the families, whatever their order of concatenation. */
  lemma {:induction false} ConfirmedGuestsAppend(a: seq<Family>, b: seq<Family>)
    ensures ConfirmedGuests(a + b) == ConfirmedGuests(a) + ConfirmedGuests(b)
    decreases |b|
  {
    if b == [] {
      assert a + b == a;
    } else {
      var b' := b[..|b| - 1];
      assert (a + b)[..|a + b| - 1] == a + b';
      ConfirmedGuestsAppend(a, b');
    }
  }

  /** Families with no confirmed guests contribute nothing: a sum of non-negative counts is non-negative. */
  lemma {:induction false} ConfirmedGuestsNonNegative(families: seq<Family>)
    requires forall i :: 0 <= i < |families| ==> families[i].confirmedGuests >= 0
    ensures ConfirmedGuests(families) >= 0
    decreases |families|
  {
    if families != [] {
      ConfirmedGuestsNonNegative(families[..|families| - 1]);
    }
  }

  // ------------------------------------------------------ create invitation

  datatype InvitationKind = Individual | FamilyInvitation

  /** The modal's `formData`. */
  datatype InvitationForm = InvitationForm(
    name: string, email: string, phone: string, country: string,
    familyName: string, contactPerson: string, maxGuests: int)

  const BlankInvitationForm := InvitationForm("", "", "", "MX", "", "", 2)

  /** The `familyData` sent to `familiesApi.create`. */
  datatype FamilyRequest = FamilyRequest(
    familyName: string, contactPerson: string, email: Option<string>,
    phone: string, country: string, maxGuests: int)

  /** `s || undefined`: an empty string is not sent. */
  function OrUndefined(s: string): (r: Option<string>)
    ensures r.None? <==> s == ""
    ensures r.Some? ==> r.value == s
  {
    if s == "" then None else Some(s)
  }

  /**
   * The guards and the request of `createInvitation`: a missing phone is
   * refused first; an individual invitation uses the name as family and
   * contact and has one place; any other kind (even none chosen) needs a
   * family name and a contact person and keeps the chosen number of places.
   */
  function InvitationRequest(kind: Option<InvitationKind>, form: InvitationForm): (r: Result<FamilyRequest, string>)
    ensures form.phone == "" ==> r == Failure("El teléfono WhatsApp es obligatorio")
    ensures r.Success? ==>
      && r.value.phone == form.phone != ""
      && r.value.country == form.country
      && r.value.email == OrUndefined(form.email)
    ensures form.phone != "" && kind == Some(Individual) ==>
      r.Success? && r.value.familyName == r.value.contactPerson == form.name && r.value.maxGuests == 1
    ensures form.phone != "" && kind != Some(Individual) ==>
      && (r.Success? <==> form.familyName != "" && form.contactPerson != "")
      && (r.Failure? ==> r.error == "Nombre de familia y contacto son obligatorios")
      && (r.Success? ==> r.value.familyName == form.familyName && r.value.contactPerson == form.contactPerson
                         && r.value.maxGuests == form.maxGuests)
  {
    if form.phone == "" then Failure("El teléfono WhatsApp es obligatorio")
    else if kind == Some(Individual) then
      Success(FamilyRequest(form.name, form.name, OrUndefined(form.email), form.phone, form.country, 1))
    else if form.familyName == "" || form.contactPerson == "" then
      Failure("Nombre de familia y contacto son obligatorios")
    else
      Success(FamilyRequest(form.familyName, form.contactPerson, OrUndefined(form.email), form.phone, form.country, form.maxGuests))
  }

  /** Only the phone is required of an individual invitation: even an empty name is accepted. */
  lemma IndividualNeedsOnlyPhone(form: InvitationForm)
    ensures InvitationRequest(Some(Individual), form).Success? <==> form.phone != ""
  {
  }

  /** The page: its family list, the loading flag and the "create invitation" modal. */
  class Home {
    var families: seq<Family>
    var loading: bool
    var showModal: bool
    var invitationType: Option<InvitationKind>
    var formData: InvitationForm
    var isCreating: bool

    constructor ()
      ensures families == [] && loading && !showModal && invitationType == None
      ensures formData == BlankInvitationForm && !isCreating
    {
      families := [];
      loading := true;
      showModal := false;
      invitationType := None;
      formData := BlankInvitationForm;
      isCreating := false;
    }

    /** `resetModal`. */
    method ResetModal()
      modifies this
      ensures !showModal && invitationType == None && formData == BlankInvitationForm
      ensures families == old(families) && loading == old(loading) && isCreating == old(isCreating)
    {
      showModal := false;
      invitationType := None;
      formData := BlankInvitationForm;
    }

    /**
     * `createInvitation`, with the outcome of `familiesApi.create` as input.
     * Returns the request sent, if any, and the text of the `alert` shown.
     */
    method CreateInvitation(outcome: Settled<Family>) returns (sent: Option<FamilyRequest>, alerted: string)
      modifies this
      ensures var v := InvitationRequest(old(invitationType), old(formData));
        && (old(formData).phone == "" ==> sent == None && alerted == v.error && isCreating == old(isCreating))
        && (old(formData).phone != "" ==> !isCreating)
        && (sent.Some? <==> v.Success?)
        && (v.Failure? ==> alerted == v.error && families == old(families) && formData == old(formData)
                           && showModal == old(showModal) && invitationType == old(invitationType))
        && (v.Success? ==> sent.value == v.value)
        && (v.Success? && outcome.Resolved? ==>
              && families == old(families) + [outcome.value]
              && alerted == "¡Invitación creada! Código: " + outcome.value.invitationCode
              && !showModal && invitationType == None && formData == BlankInvitationForm)
        && (v.Success? && outcome.Rejected? ==>
              && families == old(families) && alerted == "Error al crear la invitación"
              && formData == old(formData) && showModal == old(showModal) && invitationType == old(invitationType))
      ensures loading == old(loading)
    {
      if formData.phone == "" {
        return None, "El teléfono WhatsApp es obligatorio";
      }
      isCreating := true;
      var v := InvitationRequest(invitationType, formData);
      if v.Failure? {
        sent, alerted := None, v.error;
      } else {
        sent := Some(v.value);
        match outcome {
          case Resolved(created) =>
            families := families + [created];
            alerted := "¡Invitación creada! Código: " + created.invitationCode;
            ResetModal();
          case Rejected(_) =>
            alerted := "Error al crear la invitación";
        }
      }
      isCreating := false;
    }

    /**
     * `deleteFamily`, with the answer to `confirm` and the outcome of
     * `familiesApi.delete` as inputs. Returns the `alert` text, if one is shown.
     */
    method DeleteFamily(familyId: int, confirmed: bool, outcome: Settled<()>) returns (alerted: Option<string>)
      modifies this
      ensures !confirmed ==> alerted == None && families == old(families) && loading == old(loading)
      ensures confirmed ==> !loading
      ensures confirmed && outcome.Resolved? ==>
        families == RemoveFamily(old(families), familyId) && alerted == Some("✅ Familia eliminada exitosamente")
      ensures confirmed && outcome.Rejected? ==>
        families == old(families) && alerted == Some("❌ Error: " + outcome.reason.MessageOr("Error desconocido"))
      ensures showModal == old(showModal) && formData == old(formData) && invitationType == old(invitationType)
      ensures isCreating == old(isCreating)
    {
      if !confirmed {
        return None;
      }
      loading := true;
      match outcome {
        case Resolved(_) =>
          families := RemoveFamily(families, familyId);
          alerted := Some("✅ Familia eliminada exitosamente");
        case Rejected(reason) =>
          alerted := Some("❌ Error: " + reason.MessageOr("Error desconocido"));
      }
      loading := false;
    }

    /** `markAsSent`, with the family the server returns (or its failure) as input; a failure changes nothing. */
    method MarkAsSent(familyId: int, outcome: Settled<Family>)
      modifies this
      ensures outcome.Resolved? ==> families == ReplaceFamily(old(families), familyId, outcome.value)
      ensures outcome.Rejected? ==> families == old(families)
      ensures loading == old(loading) && showModal == old(showModal) && formData == old(formData)
      ensures invitationType == old(invitationType) && isCreating == old(isCreating)
    {
      if outcome.Resolved? {
        families := ReplaceFamily(families, familyId, outcome.value);
      }
    }
  }
}
