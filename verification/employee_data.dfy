/** The `useEmployeeData` hook: for a signed-in employee of an organization it
    looks up the active employment, the active team, the team with its
    members, and the team's shifts, one after another, each call using the id
    the previous one returned. */
module EmployeeData {
  import opened Common

  /** A team member, as far as the client carries it. */
  datatype Member = Member(id: string, role: string, userId: string)

  /** A team; `members` is replaced by the separately fetched member list. */
  datatype Team = Team(id: string, name: string, status: string, members: seq<Member>)

  datatype Shift = Shift(id: string, name: string, teamId: string, status: string)

  /** The hook's own state. Ids are `undefined` when a response lacks them. */
  datatype State = State(
    employmentId: Option<string>, teamId: Option<string>, team: Option<Team>,
    shifts: seq<Shift>, loading: bool, error: Option<string>)

  /** The state on mount: nothing known, loading. */
  const Initial: State := State(None, None, None, [], true, None)

  const FetchFailedMessage: string := "Failed to fetch employee data"

  /** What the hook reads from the session store. */
  datatype AuthView = AuthView(user: Option<User>, hasOrganization: JsValue, authLoading: bool)

  /** The backend calls the pipeline awaits, each answering for the id it is
      handed; `Threw` is a rejected request. */
  datatype Backend = Backend(
    employment: (string, Option<string>) -> Completion<Option<string>, ()>,
    activeTeam: Option<string> -> Completion<Option<string>, ()>,
    team: Option<string> -> Completion<Team, ()>,
    members: Option<string> -> Completion<seq<Member>, ()>,
    shifts: Option<string> -> Completion<seq<Shift>, ()>)

  /** The early return: auth still loading, no user, or a falsy organization. */
  predicate Skipped(a: AuthView)
  {
    a.authLoading || a.user.None? || !a.hasOrganization.Truthy()
  }

  /** The step of the pipeline whose call rejected first. */
  datatype Stage = EmploymentStage | TeamIdStage | TeamStage | ShiftsStage

  /** Where the pipeline stops, stated call by call: `None` when every call
      resolves. */
  function FirstFailure(a: AuthView, b: Backend): Option<Stage>
    requires !Skipped(a)
  {
    var e := b.employment(a.user.value.id, a.hasOrganization.Id());
    if e.Threw? then Some(EmploymentStage)
    else if b.activeTeam(e.value).Threw? then Some(TeamIdStage)
    else
      var t := b.activeTeam(e.value).value;
      if b.team(t).Threw? || b.members(t).Threw? then Some(TeamStage)
      else if b.shifts(t).Threw? then Some(ShiftsStage)
      else None
  }

  /** A state whose fields are the chain the backend answers: the team id is
      the one given for the employment, the team and shifts those of that id. */
  predicate Chained(r: State, a: AuthView, b: Backend)
    requires !Skipped(a)
  {
    && b.employment(a.user.value.id, a.hasOrganization.Id()) == Returned(r.employmentId)
    && b.activeTeam(r.employmentId) == Returned(r.teamId)
    && b.team(r.teamId).Returned? && b.members(r.teamId).Returned?
    && r.team == Some(b.team(r.teamId).value.(members := b.members(r.teamId).value))
    && b.shifts(r.teamId) == Returned(r.shifts)
  }

  function Fail(s: State): State
  {
    s.(error := Some(FetchFailedMessage), loading := false)
  }

  /** `fetchData`. Skipped, it only clears `loading`. Otherwise it clears the
      error, runs the four steps, each setting its field as it completes, and
      on the first rejection sets the error and stops; `loading` ends false. */
  function FetchData(st: State, a: AuthView, b: Backend): (r: State)
    ensures !r.loading
    ensures Skipped(a) ==> r == st.(loading := false)
    ensures !Skipped(a) ==> (r.error.None? <==> FirstFailure(a, b).None?)
    ensures !Skipped(a) && r.error.None? ==> Chained(r, a, b)
    ensures !Skipped(a) && r.error.Some? ==> r.error == Some(FetchFailedMessage)
  {
    if Skipped(a) then st.(loading := false)
    else
      var s0 := st.(loading := true, error := None);
      match b.employment(a.user.value.id, a.hasOrganization.Id())
      case Threw(_) => Fail(s0)
      case Returned(eid) =>
        var s1 := s0.(employmentId := eid);
        match b.activeTeam(eid)
        case Threw(_) => Fail(s1)
        case Returned(tid) =>
          var s2 := s1.(teamId := tid);
          match b.team(tid)
          case Threw(_) => Fail(s2)
          case Returned(details) =>
            match b.members(tid)
            case Threw(_) => Fail(s2)
            case Returned(ms) =>
              var s3 := s2.(team := Some(details.(members := ms)));
              match b.shifts(tid)
              case Threw(_) => Fail(s3)
              case Returned(sh) => s3.(shifts := sh, loading := false)
  }

  /** A failing step leaves its own field and every later one as they were
      before the fetch; the earlier steps' fields hold what they returned. */
  lemma FailureKeepsLaterFields(st: State, a: AuthView, b: Backend)
    requires !Skipped(a)
    requires FirstFailure(a, b).Some?
    ensures var r := FetchData(st, a, b);
            var e := b.employment(a.user.value.id, a.hasOrganization.Id());
            var stage := FirstFailure(a, b).value;
            && r.shifts == st.shifts
            && (stage == EmploymentStage ==> r.employmentId == st.employmentId && r.teamId == st.teamId && r.team == st.team)
            && (stage != EmploymentStage ==> r.employmentId == e.value)
            && (stage == TeamIdStage ==> r.teamId == st.teamId && r.team == st.team)
            && (stage == TeamStage || stage == ShiftsStage ==> r.teamId == b.activeTeam(e.value).value)
            && (stage == TeamStage ==> r.team == st.team)
            && (stage == ShiftsStage ==> r.team.Some?)
  {
  }

  /** The `loading` the hook exposes: its own flag or the store's. */
  function ExposedLoading(st: State, a: AuthView): bool
  {
    st.loading || a.authLoading
  }

  /** While the store is loading, the hook reports loading whatever its own
      state, and a fetch changes nothing but its own flag. */
  lemma AuthLoadingDominates(st: State, a: AuthView, b: Backend)
    requires a.authLoading
    ensures ExposedLoading(FetchData(st, a, b), a)
    ensures FetchData(st, a, b) == st.(loading := false)
  {
  }

  /** Over the real session store, whose `hasOrganization` is always
      `undefined`, the hook never fetches: it stays at its initial data and
      only stops loading. */
  lemma NeverFetchesWithoutOrganizationField(user: Option<User>, authLoading: bool, b: Backend)
    ensures FetchData(Initial, AuthView(user, Undefined, authLoading), b) == State(None, None, None, [], false, None)
  {
  }

  /** The effect re-runs `fetchData` when `user`, `hasOrganization` or the
      store's loading flag change: a run of effect invocations, each against
      the backend's answers at that time. */
  function Refetch(st: State, views: seq<AuthView>, answers: seq<Backend>): (r: State)
    requires |views| == |answers|
    ensures views != [] ==> !r.loading
    ensures views == [] ==> r == st
    decreases |views|
  {
    if views == [] then st
    else Refetch(FetchData(st, views[0], answers[0]), views[1..], answers[1..])
  }

  /** Once the effect runs have finished, the hook's own flag is down, so it
      reports loading exactly while the store is loading. */
  lemma ExposedLoadingAfterRun(st: State, views: seq<AuthView>, answers: seq<Backend>)
    requires |views| == |answers| && views != []
    ensures ExposedLoading(Refetch(st, views, answers), views[|views| - 1]) <==> views[|views| - 1].authLoading
  {
  }

  /** A refetch that succeeds overwrites whatever an earlier failure left:
      the final state is determined by the last view and backend alone. */
  lemma {:induction false} LastSuccessfulFetchWins(st: State, views: seq<AuthView>, answers: seq<Backend>)
    requires |views| == |answers| && views != []
    requires !Skipped(views[|views| - 1])
    requires FirstFailure(views[|views| - 1], answers[|answers| - 1]).None?
    ensures var r := Refetch(st, views, answers);
            r.error.None? && Chained(r, views[|views| - 1], answers[|answers| - 1])
    decreases |views|
  {
    if |views| > 1 {
      LastSuccessfulFetchWins(FetchData(st, views[0], answers[0]), views[1..], answers[1..]);
    }
  }
}
