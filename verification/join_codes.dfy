/** The `useJoinCode` hook: the list of join codes with its loading flag and
    error message, and the four operations `generateCode`, `getCodes`,
    `useCode` and `expireCode`. */
module JoinCodes {
  import opened Common

  /** A join code as listed by the backend. Times are abstract timestamps. */
  datatype JoinCode = JoinCode(
    id: string, code: string, createdAt: int, expiresAt: string,
    used: bool, usedBy: Option<string>, usedAt: Option<int>)

  datatype State = State(codes: seq<JoinCode>, loading: bool, error: Option<string>)

  /** The hook's initial state: no codes, not loading, no error. */
  const Initial: State := State([], false, None)

  /** A rejected HR API call. */
  datatype ApiError = ApiError(message: string)

  /** What `generateCode` returns: the API's response. */
  datatype Generated = Generated(code: string)

  const GenerateFailedMessage: string := "Failed to generate code"
  const FetchFailedMessage: string := "Failed to fetch codes"
  const UseFailedMessage: string := "Failed to use join code"
  const ExpireFailedMessage: string := "Failed to expire join code"

  /** An operation's outcome: the state afterwards and how the call ended. */
  datatype Run<+T> = Run(state: State, completion: Completion<T, ApiError>)

  /** `getCodes`: the list is replaced by the response; on a rejection it is
      kept and the error set. It never throws. */
  function GetCodes(st: State, list: Completion<seq<JoinCode>, ApiError>): (r: Run<()>)
    ensures r.completion.Returned?
    ensures !r.state.loading
    ensures list.Returned? ==> r.state == State(list.value, false, None)
    ensures list.Threw? ==> r.state == State(st.codes, false, Some(FetchFailedMessage))
  {
    match list
    case Returned(codes) => Run(State(codes, false, None), Returned(()))
    case Threw(_) => Run(State(st.codes, false, Some(FetchFailedMessage)), Returned(()))
  }

  /** `generateCode`: on success the list is refreshed and the API's
      response returned, even when the refresh itself fails; on a rejection
      the error is set and rethrown, and the list is not fetched. */
  function GenerateCode(st: State, generate: Completion<Generated, ApiError>, list: Completion<seq<JoinCode>, ApiError>): (r: Run<Generated>)
    ensures !r.state.loading
    ensures generate.Returned? ==> r.completion == Returned(generate.value) && r.state == GetCodes(st, list).state
    ensures generate.Threw? ==> r.completion == Threw(generate.error) && r.state == State(st.codes, false, Some(GenerateFailedMessage))
  {
    var cleared := st.(loading := true, error := None);
    match generate
    case Returned(g) =>
      var refreshed := GetCodes(cleared, list);
      Run(refreshed.state.(loading := false), Returned(g))
    case Threw(e) => Run(cleared.(error := Some(GenerateFailedMessage), loading := false), Threw(e))
  }

  /** The list update `useCode` applies: every entry with the given code is
      marked used at `now`, every other entry is kept as it was. */
  function MarkUsed(codes: seq<JoinCode>, code: string, now: int): (r: seq<JoinCode>)
    ensures |r| == |codes|
    ensures forall i :: 0 <= i < |r| && codes[i].code == code ==> r[i] == codes[i].(used := true, usedAt := Some(now))
    ensures forall i :: 0 <= i < |r| && codes[i].code != code ==> r[i] == codes[i]
    decreases |codes|
  {
    if codes == [] then []
    else
      var c := codes[0];
      [if c.code == code then c.(used := true, usedAt := Some(now)) else c] + MarkUsed(codes[1..], code, now)
  }

  /** Marking a code a second time changes no `used` flag and no entry but
      the time it was used. */
  lemma MarkUsedTwice(codes: seq<JoinCode>, code: string, t1: int, t2: int)
    ensures var once := MarkUsed(codes, code, t1);
            var twice := MarkUsed(once, code, t2);
            && |twice| == |once|
            && (forall i :: 0 <= i < |once| ==> twice[i].used == once[i].used)
            && (forall i :: 0 <= i < |once| ==> twice[i] == once[i].(usedAt := twice[i].usedAt))
  {
  }

  /** After the update every entry with the code is used, and ids and codes
      are where they were. */
  lemma MarkUsedMarksAll(codes: seq<JoinCode>, code: string, now: int)
    ensures var r := MarkUsed(codes, code, now);
            && (forall i :: 0 <= i < |r| ==> r[i].id == codes[i].id && r[i].code == codes[i].code)
            && (forall i :: 0 <= i < |r| && r[i].code == code ==> r[i].used)
            && (forall i :: 0 <= i < |r| ==> (r[i].used <==> codes[i].used || codes[i].code == code))
  {
  }

  /** `useCode`: on success the matching entries are marked used at `now`;
      on a rejection the list is kept and the error set. It never throws. */
  function UseCode(st: State, code: string, call: Completion<(), ApiError>, now: int): (r: Run<()>)
    ensures r.completion.Returned?
    ensures !r.state.loading
    ensures call.Returned? ==> r.state == State(MarkUsed(st.codes, code, now), false, None)
    ensures call.Threw? ==> r.state == State(st.codes, false, Some(UseFailedMessage))
  {
    var cleared := st.(loading := true, error := None);
    match call
    case Returned(_) => Run(cleared.(codes := MarkUsed(st.codes, code, now), loading := false), Returned(()))
    case Threw(_) => Run(cleared.(error := Some(UseFailedMessage), loading := false), Returned(()))
  }

  /** `expireCode`: on success the list is refreshed; on a rejection the list
      is kept and the error set. It never throws. */
  function ExpireCode(st: State, code: string, call: Completion<(), ApiError>, list: Completion<seq<JoinCode>, ApiError>): (r: Run<()>)
    ensures r.completion.Returned?
    ensures !r.state.loading
    ensures call.Returned? ==> r.state == GetCodes(st, list).state
    ensures call.Threw? ==> r.state == State(st.codes, false, Some(ExpireFailedMessage))
  {
    var cleared := st.(loading := true, error := None);
    match call
    case Returned(_) =>
      var refreshed := GetCodes(cleared, list);
      Run(refreshed.state.(loading := false), Returned(()))
    case Threw(_) => Run(cleared.(error := Some(ExpireFailedMessage), loading := false), Returned(()))
  }

  /** A successful generate or expire whose refresh fails still reports the
      fetch error, and the list stays as it was. */
  lemma RefreshFailureSurfaces(st: State, g: Generated, code: string, e: ApiError)
    ensures GenerateCode(st, Returned(g), Threw(e)) == Run(State(st.codes, false, Some(FetchFailedMessage)), Returned(g))
    ensures ExpireCode(st, code, Returned(()), Threw(e)).state == State(st.codes, false, Some(FetchFailedMessage))
  {
  }

  /** The hook's operations, with the outcomes of the calls each awaits. */
  datatype Op =
    | Generate(generate: Completion<Generated, ApiError>, refresh: Completion<seq<JoinCode>, ApiError>)
    | Fetch(list: Completion<seq<JoinCode>, ApiError>)
    | Use(code: string, call: Completion<(), ApiError>, now: int)
    | Expire(code: string, call: Completion<(), ApiError>, refresh: Completion<seq<JoinCode>, ApiError>)

  function Perform(st: State, op: Op): Run<()>
  {
    match op
    case Generate(g, l) =>
      var r := GenerateCode(st, g, l);
      Run(r.state, if r.completion.Returned? then Returned(()) else Threw(r.completion.error))
    case Fetch(l) => GetCodes(st, l)
    case Use(c, call, now) => UseCode(st, c, call, now)
    case Expire(c, call, l) => ExpireCode(st, c, call, l)
  }

  /** Every operation ends not loading and with an error only if one of its
      own calls failed; only `generateCode` ever throws. */
  lemma EveryOperationSettles(st: State, op: Op)
    ensures var r := Perform(st, op);
            && !r.state.loading
            && (r.completion.Threw? ==> op.Generate? && op.generate.Threw?)
            && (r.state.error.Some? ==>
                  (op.Generate? && (op.generate.Threw? || op.refresh.Threw?)) ||
                  (op.Fetch? && op.list.Threw?) ||
                  (op.Use? && op.call.Threw?) ||
                  (op.Expire? && (op.call.Threw? || op.refresh.Threw?)))
  {
  }
}
