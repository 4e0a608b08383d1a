/** The "new vehicle" modal: four inputs, a status selector and a submit that
    always sends a truck, resets the form and closes. There is no validation
    and `onSubmit` is not awaited. */
module AddTruckModal {
  import opened Numbers

  /** The status choices the selector offers, in display order. */
  const StatusOptions: seq<string> := ["active", "maintenance", "inactive"]

  /** The vehicle type every payload carries. */
  const CarType: string := "truck"

  /** The payload `onSubmit` and `onUpdate` receive, without the id. */
  datatype TruckPayload = TruckPayload(licensePlate: string, carType: string, capacity: nat, status: string, location: string)

  datatype Form = Form(licensePlate: string, capacity: string, location: string, status: string)

  /** The form on mount and after a submit. */
  const EmptyForm: Form := Form("", "", "", "active")

  /** The payload built from the form: `parseInt(capacity) || 0`, and the
      type fixed to 'truck'. */
  function Payload(f: Form): (p: TruckPayload)
    ensures p.carType == CarType
    ensures p.licensePlate == f.licensePlate && p.status == f.status && p.location == f.location
    ensures ParseInt(f.capacity).Some? ==> p.capacity == ParseInt(f.capacity).value
    ensures ParseInt(f.capacity).None? ==> p.capacity == 0
  {
    TruckPayload(f.licensePlate, CarType, ParseIntOrZero(f.capacity), f.status, f.location)
  }

  /** A submit press: the payload sent, the form afterwards and whether
      `onClose` was called. */
  datatype Press = Press(sent: TruckPayload, form: Form, closed: bool)

  function HandleSubmit(f: Form): (r: Press)
    ensures r.sent == Payload(f)
    ensures r.form == EmptyForm && r.closed
  {
    Press(Payload(f), EmptyForm, true)
  }

  /** A status button press, which this modal always accepts. */
  function SelectStatus(f: Form, choice: nat): (r: Form)
    requires choice < |StatusOptions|
    ensures r == f.(status := StatusOptions[choice])
    ensures r.status in StatusOptions
  {
    f.(status := StatusOptions[choice])
  }

  /** Whatever is typed, the payload is sent: an empty or non-numeric
      capacity becomes 0, a number's text its value. */
  lemma CapacityFallsBackToZero(f: Form, n: nat)
    ensures f.capacity == "" ==> HandleSubmit(f).sent.capacity == 0
    ensures f.capacity == NatToString(n) ==> HandleSubmit(f).sent.capacity == n
  {
    ParseIntToString(n);
  }

  /** A fresh or reset form sends a truck with status 'active', no plate,
      no location and capacity 0. */
  lemma EmptyFormPayload()
    ensures Payload(EmptyForm) == TruckPayload("", CarType, 0, "active", "")
    ensures EmptyForm.status in StatusOptions
  {
  }
}
