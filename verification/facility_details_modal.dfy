/** The facility details modal: the edit form seeded from the facility, the
    update with its guard, the cancel button that restores the facility's
    values, the type selector that only works while editing, and the
    confirmed delete. */
module FacilityDetailsModal {
  import opened Common
  import opened Numbers
  import opened AddFacilityModal

  /** A facility as the list hands it to the modal. */
  datatype Facility = Facility(
    id: string, name: string, facilityType: FacilityType, address: string,
    capacity: nat, contactInfo: Option<string>, operatingHours: Option<string>)

  datatype Details = Details(isEditing: bool, loading: bool, form: Form)

  /** The form holding a facility's values: capacity as decimal text, a
      missing optional field as ''. It passes the required-field guard
      exactly when the facility has a name and an address, and then its
      payload is the facility's own. */
  function FormOf(f: Facility): (r: Form)
    ensures r.name == f.name && r.address == f.address && r.facilityType == f.facilityType
    ensures ParseInt(r.capacity) == Some(f.capacity)
    ensures r.contactInfo == UndefinedToEmpty(f.contactInfo)
    ensures r.operatingHours == UndefinedToEmpty(f.operatingHours)
    ensures !MissingRequired(r) <==> f.name != "" && f.address != ""
    ensures !MissingRequired(r) ==> Payload(r) == PayloadOf(f)
  {
    ParseIntToString(f.capacity);
    Form(f.name, f.facilityType, f.address, NatToString(f.capacity),
         UndefinedToEmpty(f.contactInfo), UndefinedToEmpty(f.operatingHours))
  }

  /** The state on mount. Each field falls back to '' (type to 'recycling')
      when there is no facility; with one, the form is its values. */
  function Mount(facility: Option<Facility>): (r: Details)
    ensures !r.isEditing && !r.loading
    ensures facility.None? ==> r.form == EmptyForm
    ensures facility.Some? ==> r.form == FormOf(facility.value)
  {
    var form :=
      if facility.None? then EmptyForm
      else
        var f := facility.value;
        Form(OrElse(f.name, ""), f.facilityType, OrElse(f.address, ""), OrElse(NatToString(f.capacity), ""),
             UndefinedToEmpty(f.contactInfo), UndefinedToEmpty(f.operatingHours));
    Details(false, false, form)
  }

  /** What `onUpdate` receives: the facility's id and the form's payload. */
  datatype Update = Update(id: string, data: FacilityPayload)

  datatype Save = Save(state: Details, alerted: bool, update: Option<Update>, rejected: bool)

  /** `handleUpdate`, given whether `onUpdate` resolves. Without a facility
      it does nothing; with an empty required field it alerts; otherwise it
      sends the update and leaves edit mode only if that resolved. */
  function HandleUpdate(facility: Option<Facility>, st: Details, onUpdateResolves: bool): (r: Save)
    ensures facility.None? ==> r == Save(st, false, None, false)
    ensures r.alerted <==> facility.Some? && MissingRequired(st.form)
    ensures r.alerted ==> r.state == st && r.update.None?
    ensures r.update.Some? <==> facility.Some? && !MissingRequired(st.form)
    ensures r.update.Some? ==>
              && r.update.value == Update(facility.value.id, Payload(st.form))
              && !r.state.loading && r.state.form == st.form
              && (r.state.isEditing <==> st.isEditing && !onUpdateResolves)
              && (r.rejected <==> !onUpdateResolves)
  {
    if facility.None? then Save(st, false, None, false)
    else if MissingRequired(st.form) then Save(st, true, None, false)
    else
      var update := Update(facility.value.id, Payload(st.form));
      if onUpdateResolves then Save(st.(isEditing := false, loading := false), false, Some(update), false)
      else Save(st.(loading := false), false, Some(update), true)
  }

  /** The Edit button. */
  function StartEditing(st: Details): (r: Details)
    ensures r.isEditing && r.form == st.form && r.loading == st.loading
  {
    st.(isEditing := true)
  }

  /** The Cancel button, shown only while a facility is displayed: it leaves
      edit mode and restores every field from the facility. */
  function Cancel(facility: Facility, st: Details): (r: Details)
    ensures !r.isEditing && r.loading == st.loading
    ensures r.form == FormOf(facility)
  {
    st.(isEditing := false,
        form := Form(facility.name, facility.facilityType, facility.address, NatToString(facility.capacity),
                     UndefinedToEmpty(facility.contactInfo), UndefinedToEmpty(facility.operatingHours)))
  }

  /** A segment press: the type changes only while editing. */
  function SelectType(st: Details, t: FacilityType): (r: Details)
    ensures st.isEditing ==> r == st.(form := st.form.(facilityType := t))
    ensures !st.isEditing ==> r == st
  {
    if st.isEditing then st.(form := st.form.(facilityType := t)) else st
  }

  /** A text edit, which the input accepts only while editing. */
  datatype Field = Name | Address | Capacity | ContactInfo | OperatingHours

  function EditField(st: Details, field: Field, text: string): (r: Details)
    ensures !st.isEditing ==> r == st
    ensures r.isEditing == st.isEditing && r.loading == st.loading
    ensures st.isEditing && field == Name ==> r.form == st.form.(name := text)
    ensures st.isEditing && field == Address ==> r.form == st.form.(address := text)
    ensures st.isEditing && field == Capacity ==> r.form == st.form.(capacity := text)
    ensures st.isEditing && field == ContactInfo ==> r.form == st.form.(contactInfo := text)
    ensures st.isEditing && field == OperatingHours ==> r.form == st.form.(operatingHours := text)
  {
    if !st.isEditing then st
    else
      match field
      case Name => st.(form := st.form.(name := text))
      case Address => st.(form := st.form.(address := text))
      case Capacity => st.(form := st.form.(capacity := text))
      case ContactInfo => st.(form := st.form.(contactInfo := text))
      case OperatingHours => st.(form := st.form.(operatingHours := text))
  }

  /** `handleDelete` with the user's answer to the confirmation: the id
      handed to `onDelete`, if any. */
  function HandleDelete(facility: Option<Facility>, confirmed: bool): (r: Option<string>)
    ensures r.Some? <==> facility.Some? && confirmed
    ensures r.Some? ==> r.value == facility.value.id
  {
    if facility.Some? && confirmed then Some(facility.value.id) else None
  }

  /** The payload a facility stands for: a missing or empty optional field
      is `undefined`. */
  function PayloadOf(f: Facility): FacilityPayload
  {
    FacilityPayload(f.name, f.facilityType, f.address, Some(f.capacity),
                    EmptyToUndefined(UndefinedToEmpty(f.contactInfo)),
                    EmptyToUndefined(UndefinedToEmpty(f.operatingHours)))
  }

  /** Cancelling and then saving sends the facility back unchanged: the
      capacity text parses to the original number. */
  lemma CancelThenSaveRoundTrip(facility: Facility, st: Details, resolves: bool)
    requires facility.name != "" && facility.address != ""
    ensures var r := HandleUpdate(Some(facility), Cancel(facility, st), resolves);
            r.update == Some(Update(facility.id, PayloadOf(facility)))
  {
    ParseIntToString(facility.capacity);
  }

  /** A modal first mounted with a facility, opened for editing and saved
      without edits, sends that facility back. */
  lemma MountThenSaveRoundTrip(facility: Facility, resolves: bool)
    requires facility.name != "" && facility.address != ""
    ensures var r := HandleUpdate(Some(facility), StartEditing(Mount(Some(facility))), resolves);
            r.update == Some(Update(facility.id, PayloadOf(facility)))
  {
    ParseIntToString(facility.capacity);
  }

  /** The facilities screen renders a single modal from its first render,
      while no facility is selected, so the `useState` initializer seeds the
      form from `null`; a later selection changes only the `facility` prop.
      Opening the selected facility and saving without edits then alerts
      instead of sending it. */
  lemma SelectionNeverSeedsForm(selected: Facility, resolves: bool)
    ensures var r := HandleUpdate(Some(selected), StartEditing(Mount(None)), resolves);
            r.alerted && r.update.None?
  {
  }

  /** On the same screen, after Cancel restored facility `a`'s fields,
      selecting `b` and saving sends `b`'s id with `a`'s values. */
  lemma StaleFormSave(a: Facility, b: Facility, st: Details, resolves: bool)
    requires a.name != "" && a.address != ""
    ensures var r := HandleUpdate(Some(b), StartEditing(Cancel(a, st)), resolves);
            r.update == Some(Update(b.id, PayloadOf(a)))
  {
  }

  /** In the same stale situation the delete follows the selection while
      the save does not: a confirmed delete targets `b`, and the save sends
      `b`'s id with `a`'s values, which differ from `b`'s own whenever the
      two facilities' payloads differ. */
  lemma StaleFormDeleteFollowsSelection(a: Facility, b: Facility, st: Details, resolves: bool)
    requires a.name != "" && a.address != ""
    ensures HandleDelete(Some(b), true) == Some(b.id)
    ensures var r := HandleUpdate(Some(b), StartEditing(Cancel(a, st)), resolves);
            && r.update.Some? && r.update.value.id == b.id
            && (PayloadOf(a) != PayloadOf(b) ==> r.update.value.data != PayloadOf(b))
  {
    StaleFormSave(a, b, st, resolves);
  }

  /** The modal as evidently intended: an effect on `facility` that seeds the
      form from each facility it is handed, as the vehicle details modal
      does, keeping the edit and loading flags. */
  function SyncFromFacility(facility: Option<Facility>, st: Details): (r: Details)
    ensures r.isEditing == st.isEditing && r.loading == st.loading
    ensures facility.Some? ==> r.form == FormOf(facility.value)
    ensures facility.None? ==> r == st
  {
    if facility.Some? then st.(form := FormOf(facility.value)) else st
  }

  /** With the form synced, whatever the modal showed before, opening the
      selected facility and saving without edits sends that facility back,
      and one without a name or address alerts. */
  lemma SyncedSaveRoundTrip(facility: Facility, st: Details, resolves: bool)
    ensures var r := HandleUpdate(Some(facility), StartEditing(SyncFromFacility(Some(facility), st)), resolves);
            && (facility.name != "" && facility.address != "" ==>
                  r.update == Some(Update(facility.id, PayloadOf(facility))))
            && (facility.name == "" || facility.address == "" ==> r.alerted)
  {
  }

  /** A facility with an empty name or address cannot be saved back as it
      is: the guard alerts instead. */
  lemma EmptyNameBlocksSave(facility: Facility, st: Details, resolves: bool)
    requires facility.name == "" || facility.address == ""
    ensures HandleUpdate(Some(facility), Cancel(facility, st), resolves).alerted
  {
  }

  /** Outside edit mode no press changes the form. */
  lemma ReadOnlyUntilEdit(st: Details, t: FacilityType, field: Field, text: string)
    requires !st.isEditing
    ensures SelectType(st, t) == st && EditField(st, field, text) == st
  {
  }
}
