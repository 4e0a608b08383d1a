/** The "Add New Facility" modal: its form, the required-field guard of
    `handleSubmit`, the payload it hands to `onSubmit`, and the reset that
    follows a successful submit. */
module AddFacilityModal {
  import opened Common
  import opened Numbers

  datatype FacilityType = Recycling | Treatment

  /** The payload shape `onSubmit` and `onUpdate` receive. `capacity` is
      `parseInt` of the text: `None` stands for `NaN`. Missing optional
      fields are `undefined`. */
  datatype FacilityPayload = FacilityPayload(
    name: string, facilityType: FacilityType, address: string,
    capacity: Option<nat>, contactInfo: Option<string>, operatingHours: Option<string>)

  /** The form's text fields and the segmented type choice. */
  datatype Form = Form(
    name: string, facilityType: FacilityType, address: string,
    capacity: string, contactInfo: string, operatingHours: string)

  /** The form on mount and after a reset: empty text, type 'recycling'. */
  const EmptyForm: Form := Form("", Recycling, "", "", "", "")

  datatype State = State(form: Form, loading: bool)

  /** `!name || !address || !capacity`: a required field is empty. */
  predicate MissingRequired(f: Form)
  {
    f.name == "" || f.address == "" || f.capacity == ""
  }

  /** The payload built from the form. */
  function Payload(f: Form): (p: FacilityPayload)
    ensures p.name == f.name && p.facilityType == f.facilityType && p.address == f.address
    ensures p.capacity == ParseInt(f.capacity)
    ensures p.contactInfo.None? <==> f.contactInfo == ""
    ensures p.operatingHours.None? <==> f.operatingHours == ""
    ensures UndefinedToEmpty(p.contactInfo) == f.contactInfo
    ensures UndefinedToEmpty(p.operatingHours) == f.operatingHours
  {
    FacilityPayload(f.name, f.facilityType, f.address, ParseInt(f.capacity),
                    EmptyToUndefined(f.contactInfo), EmptyToUndefined(f.operatingHours))
  }

  /** A submit press: the state afterwards, whether the alert showed, the
      payload handed to `onSubmit` if any, and whether `handleSubmit` itself
      rejected (a rejection of `onSubmit` passes through the `finally`). */
  datatype Press = Press(state: State, alerted: bool, submitted: Option<FacilityPayload>, rejected: bool)

  /** `handleSubmit`, given whether `onSubmit` resolves. */
  function HandleSubmit(st: State, onSubmitResolves: bool): (r: Press)
    ensures r.alerted <==> MissingRequired(st.form)
    ensures r.alerted ==> r.state == st && r.submitted.None? && !r.rejected
    ensures !r.alerted ==> r.submitted == Some(Payload(st.form)) && !r.state.loading
    ensures !r.alerted && onSubmitResolves ==> r.state.form == EmptyForm && !r.rejected
    ensures !r.alerted && !onSubmitResolves ==> r.state.form == st.form && r.rejected
  {
    if MissingRequired(st.form) then Press(st, true, None, false)
    else
      var payload := Payload(st.form);
      if onSubmitResolves then Press(State(EmptyForm, false), false, Some(payload), false)
      else Press(st.(loading := false), false, Some(payload), true)
  }

  /** A submitted payload always has a name and an address, and a capacity
      unless the capacity text does not start with a digit. */
  lemma SubmittedPayloadHasRequired(st: State, resolves: bool)
    ensures var r := HandleSubmit(st, resolves);
            r.submitted.Some? ==>
              && r.submitted.value.name != "" && r.submitted.value.address != ""
              && (r.submitted.value.capacity.None? <==> !IsDigit(st.form.capacity[0]))
  {
  }

  /** A digit capacity reaches `onSubmit` as its value, whatever follows
      the digits (`parseInt("12t") === 12`). */
  lemma CapacityIsLeadingNumber(f: Form, digits: string, rest: string)
    requires AllDigits(digits) && digits != []
    requires rest == [] || !IsDigit(rest[0])
    requires f.capacity == digits + rest
    ensures Payload(f).capacity == Some(DecimalValue(digits))
  {
    ParseIntIgnoresTail(digits, rest);
  }

  /** After a successful submit the form is back to its mount state, so a
      second press is stopped by the guard and submits nothing. */
  lemma SecondPressAlerts(st: State)
    requires !MissingRequired(st.form)
    ensures var first := HandleSubmit(st, true);
            var second := HandleSubmit(first.state, true);
            second.alerted && second.submitted.None? && second.state == first.state
  {
  }
}
