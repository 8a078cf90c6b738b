/** Session fetches and silent token refresh (apps/application/src/context/session.tsx) over the
    generation counter of the token store (apps/application/src/lib/token-store.ts).

    Any number of callers run at once. A caller or a refresh flight advances by one event at a time,
    the stretch of code between two awaits; events come in any order and replies are arbitrary. */
module Session {
  import opened Strings

  type CallerId = nat
  type FlightId = nat

  /** An HTTP reply; `user` is there when a session body says `authenticated`. */
  datatype Reply = Threw | Reply(status: int, user: Option<string>)

  /** How a refresh flight ended. */
  datatype End =
    | NoToken
    | Failed(status: int)
    | Refused
    | Unclear
    | Committed(ok: bool)
    | Stale
    | Broke

  datatype FlightPhase = AwaitToken | AwaitPost | AwaitJson | AwaitCommit(ok: bool) | Settled(end: End)

  /** `released` is set once the `finally` block of its owner has run. */
  datatype Flight = Flight(generation: nat, phase: FlightPhase, released: bool)

  /** `withSilentRefresh` or `fetchSession`. */
  datatype Kind = Call | Fetch

  /** `flight` is None when `performRefresh` returned at once. */
  datatype Phase =
    | AwaitReply
    | AwaitRefresh(flight: Option<FlightId>, owner: bool)
    | AwaitSession
    | Done(outcome: Outcome)

  /** How a caller ended: `Returned` is a response of `withSilentRefresh`, with the generation
      right after it returned; `Finished` is the end of `fetchSession`. */
  datatype Outcome = Raised | Returned(cleared: bool, endGeneration: nat) | Finished(authenticated: bool)

  /** `sent` counts the requests made and `sentIn` is the generation at the latest of them. */
  datatype Caller = Caller(kind: Kind, generation: nat, sent: nat, sentIn: nat, replies: seq<Reply>, phase: Phase)

  /** The session shown, with the generation at which it was requested. */
  datatype Data = SignedOut | SignedIn(user: string, requestedIn: nat)

  /** `tokensOf` is the generation whose login or rotation wrote the tokens in memory. */
  datatype State = State(
    generation: nat,
    tokensOf: nat,
    loaded: bool,
    data: Data,
    dataGeneration: nat,
    inFlight: Option<FlightId>,
    flights: seq<Flight>,
    callers: seq<Caller>)

  datatype TokenRead = Missing | Present | Unreadable

  /** A refresh body: no JSON, new tokens, `refreshed: false`, or anything else. */
  datatype RefreshBody = Malformed | Rotated | Denied | Incomplete

  datatype Event =
    | Login
    | Clear
    | Start(kind: Kind)
    | Answer(caller: CallerId, reply: Reply)
    | TokenIs(flight: FlightId, token: TokenRead)
    | Posted(flight: FlightId, status: Option<int>)
    | Parsed(flight: FlightId, body: RefreshBody)
    | Persisted(flight: FlightId)
    | Release(flight: FlightId)
    | Resume(caller: CallerId)
    | SessionRefreshed(caller: CallerId, ok: bool)

  const INITIAL := State(0, 0, false, SignedOut, 0, None, [], [])

  // ----- pieces of code

  predicate Ok(r: Reply) { r.Reply? && 200 <= r.status < 300 }

  predicate IsDefinitiveRefreshFailure(status: int) {
    status < 500 && status != 408 && status != 409 && status != 429
  }

  predicate Refreshed(end: End) { end == Committed(true) }

  predicate Definitive(end: End) {
    end.NoToken? || end.Refused? || (end.Failed? && IsDefinitiveRefreshFailure(end.status))
  }

  /** `applySignedOut`, with `clearAllTokens` inside. */
  function ApplySignedOut(s: State): State {
    s.(generation := s.generation + 1, tokensOf := s.generation + 1,
       data := SignedOut, dataGeneration := s.generation + 1, loaded := true)
  }

  function SetCaller(s: State, i: CallerId, c: Caller): State
    requires i < |s.callers|
  {
    s.(callers := s.callers[i := c])
  }

  function SetFlight(s: State, f: FlightId, phase: FlightPhase): State
    requires f < |s.flights|
  {
    s.(flights := s.flights[f := s.flights[f].(phase := phase)])
  }

  predicate Joins(s: State, c: Caller) {
    s.inFlight.Some? && s.inFlight.value < |s.flights| && s.flights[s.inFlight.value].generation == c.generation
  }

  /** Caller i, now `c`, runs `performRefresh` up to its first await. */
  function PerformRefresh(s: State, i: CallerId, c: Caller): State
    requires i < |s.callers|
  {
    if c.generation != s.generation then SetCaller(s, i, c.(phase := AwaitRefresh(None, false)))
    else if Joins(s, c) then SetCaller(s, i, c.(phase := AwaitRefresh(s.inFlight, false)))
    else
      var n := |s.flights|;
      SetCaller(s, i, c.(phase := AwaitRefresh(Some(n), true)))
        .(flights := s.flights + [Flight(c.generation, AwaitToken, false)], inFlight := Some(n))
  }

  function Resend(s: State, c: Caller): Caller {
    c.(sent := c.sent + 1, sentIn := s.generation, phase := AwaitReply)
  }

  /** The end of `fetchSession` with its `finally` block. */
  function Finish(s: State, i: CallerId, c: Caller): State
    requires i < |s.callers|
  {
    SetCaller(s, i, c.(phase := Done(Finished(false)))).(loaded := s.loaded || c.generation == s.generation)
  }

  /** `fetchSession` from `if (res.ok)` on. */
  function Conclude(s: State, i: CallerId, c: Caller, r: Reply): State
    requires i < |s.callers|
  {
    if Ok(r) && r.user.Some? then
      SetCaller(s, i, c.(phase := Done(Finished(true))))
        .(data := SignedIn(r.user.value, c.sentIn), dataGeneration := c.generation, loaded := true)
    else if Ok(r) || (r.Reply? && (r.status == 401 || r.status == 403)) then
      ApplySignedOut(SetCaller(s, i, c.(phase := Done(Finished(false)))))
    else Finish(s, i, c)
  }

  predicate NeedsRefresh(r: Reply) {
    (Ok(r) && r.user.None?) || (r.Reply? && r.status == 401)
  }

  function FetchAnswered(s: State, i: CallerId, c: Caller, r: Reply): State
    requires i < |s.callers|
  {
    if r.Threw? || c.generation != s.generation then Finish(s, i, c)
    else if |c.replies| == 1 && NeedsRefresh(r) then PerformRefresh(s, i, c)
    else Conclude(s, i, c, r)
  }

  function CallAnswered(s: State, i: CallerId, c: Caller, r: Reply): State
    requires i < |s.callers|
  {
    if r.Threw? || c.generation != s.generation then SetCaller(s, i, c.(phase := Done(Raised)))
    else if |c.replies| > 1 || r.status != 401 then
      SetCaller(s, i, c.(phase := Done(Returned(false, s.generation))))
    else PerformRefresh(s, i, c)
  }

  function FetchResumed(s: State, i: CallerId, c: Caller, end: End): State
    requires i < |s.callers| && c.replies != []
  {
    if c.generation != s.generation then Finish(s, i, c)
    else if Refreshed(end) then SetCaller(s, i, Resend(s, c))
    else if !Definitive(end) then Finish(s, i, c)
    else Conclude(s, i, c, c.replies[|c.replies| - 1])
  }

  function CallResumed(s: State, i: CallerId, c: Caller, end: End): State
    requires i < |s.callers|
  {
    if c.generation != s.generation then SetCaller(s, i, c.(phase := Done(Raised)))
    else if Refreshed(end) then SetCaller(s, i, c.(phase := AwaitSession))
    else if Definitive(end) then
      ApplySignedOut(SetCaller(s, i, c.(phase := Done(Returned(true, s.generation + 1)))))
    else SetCaller(s, i, c.(phase := Done(Returned(false, s.generation))))
  }

  /** The result caller c waits for, once it can go on. */
  function Awaited(s: State, c: Caller): Option<End> {
    if !c.phase.AwaitRefresh? then None
    else if c.phase.flight.None? then Some(Stale)
    else
      var f := c.phase.flight.value;
      if f < |s.flights| && s.flights[f].phase.Settled? && (c.phase.owner ==> s.flights[f].released)
      then Some(s.flights[f].phase.end)
      else None
  }

  // ----- one event

  function FlightStep(s: State, f: FlightId, e: Event): State
    requires f < |s.flights|
  {
    var current := s.flights[f].generation == s.generation;
    match (s.flights[f].phase, e)
    case (AwaitToken, TokenIs(_, token)) =>
      SetFlight(s, f,
                if token.Unreadable? then Settled(Broke)
                else if !current then Settled(Stale)
                else if token.Missing? then Settled(NoToken)
                else AwaitPost)
    case (AwaitPost, Posted(_, status)) =>
      SetFlight(s, f,
                if status.None? then Settled(Broke)
                else if 200 <= status.value < 300 then AwaitJson
                else Settled(Failed(status.value)))
    case (AwaitJson, Parsed(_, body)) =>
      (match body
       case Malformed => SetFlight(s, f, Settled(Broke))
       case Denied => SetFlight(s, f, Settled(Refused))
       case Incomplete => SetFlight(s, f, Settled(Unclear))
       case Rotated =>
         SetFlight(s, f, AwaitCommit(current)).(tokensOf := if current then s.flights[f].generation else s.tokensOf))
    case (AwaitCommit(ok), Persisted(_)) => SetFlight(s, f, Settled(Committed(ok && current)))
    case (Settled(_), Release(_)) =>
      if s.flights[f].released then s
      else s.(flights := s.flights[f := s.flights[f].(released := true)],
              inFlight := if s.inFlight == Some(f) then None else s.inFlight)
    case _ => s
  }

  function CallerStep(s: State, i: CallerId, e: Event): State
    requires i < |s.callers|
  {
    var c := s.callers[i];
    match e
    case Answer(_, r) =>
      if !c.phase.AwaitReply? then s
      else
        var c' := c.(replies := c.replies + [r]);
        if c.kind.Fetch? then FetchAnswered(s, i, c', r) else CallAnswered(s, i, c', r)
    case Resume(_) =>
      var end := Awaited(s, c);
      if end.None? || c.replies == [] then s
      else if c.kind.Fetch? then FetchResumed(s, i, c, end.value) else CallResumed(s, i, c, end.value)
    case SessionRefreshed(_, ok) =>
      if !c.phase.AwaitSession? then s
      else if !ok || c.generation != s.generation then SetCaller(s, i, c.(phase := Done(Raised)))
      else SetCaller(s, i, Resend(s, c))
    case _ => s
  }

  function Apply(s: State, e: Event): State {
    match e
    case Login => s.(generation := s.generation + 1, tokensOf := s.generation + 1)
    case Clear => ApplySignedOut(s)
    case Start(kind) => s.(callers := s.callers + [Caller(kind, s.generation, 1, s.generation, [], AwaitReply)])
    case Answer(i, _) => if i < |s.callers| then CallerStep(s, i, e) else s
    case Resume(i) => if i < |s.callers| then CallerStep(s, i, e) else s
    case SessionRefreshed(i, _) => if i < |s.callers| then CallerStep(s, i, e) else s
    case TokenIs(f, _) => if f < |s.flights| then FlightStep(s, f, e) else s
    case Posted(f, _) => if f < |s.flights| then FlightStep(s, f, e) else s
    case Parsed(f, _) => if f < |s.flights| then FlightStep(s, f, e) else s
    case Persisted(f) => if f < |s.flights| then FlightStep(s, f, e) else s
    case Release(f) => if f < |s.flights| then FlightStep(s, f, e) else s
  }

  function Run(events: seq<Event>): State {
    if events == [] then INITIAL else Apply(Run(events[..|events| - 1]), events[|events| - 1])
  }

  /** The session the provider's value shows: only the current generation's own. */
  function Visible(s: State): Data {
    if s.dataGeneration == s.generation then s.data else SignedOut
  }
}
