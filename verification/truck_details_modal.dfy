/** The vehicle details modal: its fields follow the selected truck, the edit
    mode gates every input and the status selector, both cancel buttons
    restore the truck's values, a save sends an update and leaves edit mode,
    and a confirmed delete calls `onDelete` and then `onClose`. */
module TruckDetailsModal {
  import opened Common
  import opened Numbers
  import opened AddTruckModal

  /** A truck as the fleet list hands it to the modal; `capacity` is text. */
  datatype Truck = Truck(id: string, licensePlate: string, carType: string, capacity: string, status: string, location: string)

  datatype Details = Details(isEditing: bool, form: Form)

  /** The state on mount: not editing, empty fields, status 'active'. */
  const Mounted: Details := Details(false, EmptyForm)

  /** The form holding a truck's values; its payload is the truck's, with
      the capacity text read by `parseInt(…) || 0`. */
  function FormOf(t: Truck): (r: Form)
    ensures r.licensePlate == t.licensePlate && r.capacity == t.capacity
    ensures r.location == t.location && r.status == t.status
    ensures Payload(r) == TruckPayload(t.licensePlate, CarType, ParseIntOrZero(t.capacity), t.status, t.location)
  {
    Form(t.licensePlate, t.capacity, t.location, t.status)
  }

  /** The effect on `truck`: a non-null truck overwrites the four fields,
      a null one leaves them; edit mode is kept either way. */
  function SyncFromTruck(truck: Option<Truck>, st: Details): (r: Details)
    ensures r.isEditing == st.isEditing
    ensures truck.Some? ==> r.form == FormOf(truck.value)
    ensures truck.None? ==> r == st
  {
    if truck.Some? then
      var t := truck.value;
      st.(form := Form(t.licensePlate, t.capacity, t.location, t.status))
    else st
  }

  /** What `onUpdate` receives: the truck's id and the form's payload. */
  datatype Update = Update(id: string, data: TruckPayload)

  /** `handleUpdate`: without a truck nothing happens; otherwise the update
      is sent without any check and edit mode ends. */
  function HandleUpdate(truck: Option<Truck>, st: Details): (r: (Details, Option<Update>))
    ensures truck.None? ==> r == (st, None)
    ensures truck.Some? ==> r.1 == Some(Update(truck.value.id, Payload(st.form)))
    ensures truck.Some? ==> r.0 == st.(isEditing := false)
  {
    if truck.None? then (st, None)
    else (st.(isEditing := false), Some(Update(truck.value.id, Payload(st.form))))
  }

  /** The header and the footer Cancel buttons, which do the same thing:
      leave edit mode and, with a truck shown, restore its values. */
  function Cancel(truck: Option<Truck>, st: Details): (r: Details)
    ensures !r.isEditing
    ensures truck.Some? ==> r.form == FormOf(truck.value)
    ensures truck.None? ==> r.form == st.form
  {
    var left := st.(isEditing := false);
    if truck.Some? then
      var t := truck.value;
      left.(form := Form(t.licensePlate, t.capacity, t.location, t.status))
    else left
  }

  /** The Edit buttons (header pencil and footer). */
  function StartEditing(st: Details): (r: Details)
    ensures r.isEditing && r.form == st.form
  {
    st.(isEditing := true)
  }

  /** A status button press: accepted only while editing. */
  function SelectStatus(st: Details, choice: nat): (r: Details)
    requires choice < |StatusOptions|
    ensures st.isEditing ==> r == st.(form := st.form.(status := StatusOptions[choice]))
    ensures !st.isEditing ==> r == st
  {
    if st.isEditing then st.(form := AddTruckModal.SelectStatus(st.form, choice)) else st
  }

  /** The text inputs, editable only while editing. */
  datatype Field = LicensePlate | Capacity | Location

  function EditField(st: Details, field: Field, text: string): (r: Details)
    ensures !st.isEditing ==> r == st
    ensures r.isEditing == st.isEditing && r.form.status == st.form.status
    ensures st.isEditing && field == LicensePlate ==> r.form == st.form.(licensePlate := text)
    ensures st.isEditing && field == Capacity ==> r.form == st.form.(capacity := text)
    ensures st.isEditing && field == Location ==> r.form == st.form.(location := text)
  {
    if !st.isEditing then st
    else
      match field
      case LicensePlate => st.(form := st.form.(licensePlate := text))
      case Capacity => st.(form := st.form.(capacity := text))
      case Location => st.(form := st.form.(location := text))
  }

  /** The modal's calls out, in order. */
  datatype Call = OnDelete(id: string) | OnClose

  /** `handleDelete` with the user's answer: a confirmed delete of a shown
      truck calls `onDelete` with its id and then `onClose`. */
  function HandleDelete(truck: Option<Truck>, confirmed: bool): (r: seq<Call>)
    ensures truck.Some? && confirmed ==> r == [OnDelete(truck.value.id), OnClose]
    ensures truck.None? || !confirmed ==> r == []
  {
    if truck.Some? && confirmed then [OnDelete(truck.value.id), OnClose] else []
  }

  /** A confirmed delete and a save address the same truck, the one shown;
      the delete also closes the modal, which the save does not. */
  lemma DeleteAndUpdateAgreeOnTruck(truck: Truck, st: Details)
    ensures var d := HandleDelete(Some(truck), true);
            var u := HandleUpdate(Some(truck), st);
            && u.1.Some? && d[0] == OnDelete(u.1.value.id)
            && d[|d| - 1] == OnClose
  {
  }

  /** Whatever type the truck had, an update always sends 'truck'. */
  lemma UpdateForgetsCarType(truck: Truck, st: Details)
    ensures var r := HandleUpdate(Some(truck), st);
            r.1.Some? && r.1.value.data.carType == CarType
  {
  }

  /** Editing and cancelling undoes every edit made in between. */
  lemma CancelUndoesEdits(truck: Truck, field: Field, text: string, choice: nat)
    requires choice < |StatusOptions|
    ensures var shown := SyncFromTruck(Some(truck), Mounted);
            var edited := SelectStatus(EditField(StartEditing(shown), field, text), choice);
            Cancel(Some(truck), edited) == shown
  {
  }

  /** Opening a truck and saving without edits sends its own values back,
      with the capacity's number when its text is a number. */
  lemma SaveUneditedRoundTrip(truck: Truck, n: nat)
    requires truck.capacity == NatToString(n)
    ensures var r := HandleUpdate(Some(truck), StartEditing(SyncFromTruck(Some(truck), Mounted)));
            r.1 == Some(Update(truck.id, TruckPayload(truck.licensePlate, CarType, n, truck.status, truck.location)))
  {
    ParseIntToString(n);
  }
}
