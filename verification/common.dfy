/** Values shared by every part of the model: optional values, the outcome of
    an awaited call, the routes the screens navigate to, the user record and the
    few JavaScript values whose truthiness the source branches on. */
module Common {

  /** A value that may be absent (`null` or `undefined` in the source). */
  datatype Option<+T> = None | Some(value: T)

  /** How an awaited call ended: it returned a value or it threw. */
  datatype Completion<+T, +E> = Returned(value: T) | Threw(error: E)

  /** A navigation target, by the path the screens hand to the router. */
  datatype Route = Login | Panel | OrganizationCreate | DashboardPanel | AuthLogin
  {
    function Path(): string
    {
      match this
      case Login => "/login"
      case Panel => "/panel"
      case OrganizationCreate => "/organizationCreate"
      case DashboardPanel => "/dashboard/panel"
      case AuthLogin => "/auth/login"
    }
  }

  /** The identity record the backend returns; the client only carries it. */
  datatype User = User(id: string, name: string, email: string, role: string)

  /** A JavaScript value as far as the source inspects it: its truthiness and,
      for an object, its `id` property. */
  datatype JsValue = Undefined | Null | Bool(b: bool) | Obj(id: Option<string>)
  {
    /** JavaScript truthiness: `undefined`, `null` and `false` are falsy. */
    predicate Truthy()
    {
      match this
      case Undefined => false
      case Null => false
      case Bool(b) => b
      case Obj(_) => true
    }

    /** The `.id` property: only an object carrying one has it. */
    function Id(): Option<string>
    {
      if Obj? then id else None
    }
  }

  /** `s || fallback` on a string: the empty string is falsy. */
  function OrElse(s: string, fallback: string): (r: string)
    ensures r != "" || fallback == ""
    ensures s != "" ==> r == s
    ensures s == "" ==> r == fallback
  {
    if s != "" then s else fallback
  }

  /** `s || undefined` on a string: an empty field becomes `undefined`. */
  function EmptyToUndefined(s: string): (r: Option<string>)
    ensures r.None? <==> s == ""
    ensures r.Some? ==> r.value == s
  {
    if s == "" then None else Some(s)
  }

  /** `optional || ''`: a missing optional string becomes the empty string. */
  function UndefinedToEmpty(o: Option<string>): (r: string)
    ensures o.Some? ==> r == o.value
    ensures o.None? ==> r == ""
  {
    if o.Some? then o.value else ""
  }

  /** Dropping a missing optional field and restoring it as `''` undoes
      `s || undefined`. */
  lemma EmptyToUndefinedRoundTrip(s: string)
    ensures UndefinedToEmpty(EmptyToUndefined(s)) == s
  {
  }
}
