/** What every run of sessions and refreshes keeps (apps/application/src/context/session.tsx): one
    flight at a time, calls that see one generation, and who is shown or signed out. */
module SessionTheorems {
  import opened Strings
  import opened Session

  // ----- what every event keeps

  predicate DataSound(s: State) {
    && s.tokensOf == s.generation
    && s.dataGeneration <= s.generation
    && (s.data.SignedIn? ==> s.data.requestedIn == s.dataGeneration)
  }

  predicate FlightsSound(s: State) {
    && (s.inFlight.Some? ==> s.inFlight.value < |s.flights| && !s.flights[s.inFlight.value].released)
    && (forall f :: 0 <= f < |s.flights| ==>
          && s.flights[f].generation <= s.generation
          && (s.flights[f].released ==> s.flights[f].phase.Settled?)
          && (s.flights[f].generation == s.generation && !s.flights[f].phase.Settled? ==> s.inFlight == Some(f)))
    && (forall f, g :: 0 <= f < g < |s.flights| && s.flights[f].generation == s.flights[g].generation ==>
          s.flights[f].phase.Settled?)
  }

  /** A flight of this generation ended in a way that settles the matter. */
  predicate DefinitiveFlight(flights: seq<Flight>, f: FlightId, generation: nat) {
    f < |flights| && flights[f].generation == generation && flights[f].phase.Settled? && Definitive(flights[f].phase.end)
  }

  ghost predicate CallerSound(generation: nat, flights: seq<Flight>, c: Caller) {
    && c.sentIn == c.generation <= generation
    && 1 <= c.sent <= 2
    && |c.replies| == (if c.phase.AwaitReply? then c.sent - 1 else c.sent)
    && (c.phase.AwaitRefresh? || c.phase.AwaitSession? || c.sent == 2 ==>
          |c.replies| >= 1 && NeedsRefresh(c.replies[0]) && (c.kind.Call? ==> c.replies[0].status == 401))
    && (c.phase.AwaitRefresh? || c.phase.AwaitSession? ==> c.sent == 1)
    && (c.phase.AwaitRefresh? && c.phase.flight.Some? ==>
          c.phase.flight.value < |flights| && flights[c.phase.flight.value].generation == c.generation)
    && (c.phase.Done? && c.phase.outcome.Returned? ==>
          && c.kind.Call?
          && c.replies[|c.replies| - 1].Reply?
          && c.phase.outcome.endGeneration == c.generation + (if c.phase.outcome.cleared then 1 else 0) <= generation
          && (c.phase.outcome.cleared ==>
                c.sent == 1 && c.replies[0].status == 401 && exists f :: DefinitiveFlight(flights, f, c.generation)))
  }

  ghost predicate CallersSound(s: State) {
    forall i :: 0 <= i < |s.callers| ==> CallerSound(s.generation, s.flights, s.callers[i])
  }

  ghost predicate Invariant(s: State) {
    DataSound(s) && FlightsSound(s) && CallersSound(s)
  }

  /** Flights only advance; a settled one stays as it is. */
  predicate FlightsAdvance(before: seq<Flight>, after: seq<Flight>) {
    && |before| <= |after|
    && forall f :: 0 <= f < |before| ==>
         after[f].generation == before[f].generation && (before[f].phase.Settled? ==> after[f].phase == before[f].phase)
  }

  lemma {:induction false} CallerStays(g: nat, flights: seq<Flight>, g': nat, flights': seq<Flight>, c: Caller)
    requires CallerSound(g, flights, c) && g <= g' && FlightsAdvance(flights, flights')
    ensures CallerSound(g', flights', c)
  {
    if c.phase.Done? && c.phase.outcome.Returned? && c.phase.outcome.cleared {
      var f :| DefinitiveFlight(flights, f, c.generation);
      assert DefinitiveFlight(flights', f, c.generation);
    }
  }

  /** A step that changes at most caller i, to something sound. */
  lemma {:induction false} CallersStay(s: State, t: State, i: CallerId)
    requires CallersSound(s) && s.generation <= t.generation && FlightsAdvance(s.flights, t.flights)
    requires |t.callers| == |s.callers|
    requires forall j :: 0 <= j < |s.callers| && j != i ==> t.callers[j] == s.callers[j]
    requires i < |s.callers| ==> t.callers[i] == s.callers[i] || CallerSound(t.generation, t.flights, t.callers[i])
    ensures CallersSound(t)
  {
    hide CallerSound, FlightsAdvance;
    forall j | 0 <= j < |t.callers| ensures CallerSound(t.generation, t.flights, t.callers[j]) {
      if t.callers[j] == s.callers[j] {
        CallerStays(s.generation, s.flights, t.generation, t.flights, s.callers[j]);
      }
    }
  }

  lemma {:induction false} FlightStepAdvances(s: State, f: FlightId, e: Event)
    requires f < |s.flights|
    ensures var t := FlightStep(s, f, e);
            FlightsAdvance(s.flights, t.flights) && t.generation == s.generation && t.callers == s.callers
            && t.data == s.data && t.dataGeneration == s.dataGeneration && t.loaded == s.loaded
  {
  }

  lemma {:induction false} FlightStepSound(s: State, f: FlightId, e: Event)
    requires Invariant(s) && f < |s.flights|
    ensures Invariant(FlightStep(s, f, e))
  {
    hide CallersSound;
    var t := FlightStep(s, f, e);
    FlightStepAdvances(s, f, e);
    CallersStay(s, t, |s.callers|) by {
      hide FlightStep;
    }
    assert |t.flights| == |s.flights| && forall g :: 0 <= g < |s.flights| && g != f ==> t.flights[g] == s.flights[g];
  }

  lemma {:induction false} PerformRefreshSound(s: State, i: CallerId, c: Caller)
    requires Invariant(s) && i < |s.callers|
    requires CallerSound(s.generation, s.flights, c.(phase := AwaitSession))
    ensures Invariant(PerformRefresh(s, i, c))
  {
    var t := PerformRefresh(s, i, c);
    assert FlightsSound(t) by { hide CallerSound; }
    assert CallerSound(t.generation, t.flights, t.callers[i]) by { hide FlightsSound; }
    hide CallerSound, FlightsSound;
    CallersStay(s, t, i);
  }

  /** Whatever ends or resends a caller, flights are untouched and the generation does not fall. */
  lemma {:induction false} SettleSound(s: State, t: State, i: CallerId)
    requires Invariant(s) && i < |s.callers| == |t.callers| && t.callers == s.callers[i := t.callers[i]]
    requires s.generation <= t.generation && t.flights == s.flights && t.inFlight == s.inFlight
    requires DataSound(t) && CallerSound(t.generation, t.flights, t.callers[i])
    ensures Invariant(t)
  {
    assert FlightsSound(t) by { hide CallersSound, CallerSound; }
    hide CallerSound, FlightsSound;
    CallersStay(s, t, i);
  }

  /** `fetchSession` may end, with a session of its own generation, or sign out. */
  lemma {:induction false} ConcludeSound(s: State, i: CallerId, c: Caller, r: Reply)
    requires Invariant(s) && i < |s.callers| && c.kind.Fetch? && c.generation == s.generation
    requires CallerSound(s.generation, s.flights, c.(phase := Done(Raised)))
    ensures Invariant(Conclude(s, i, c, r))
  {
    hide FlightsSound, CallersSound;
    SettleSound(s, Conclude(s, i, c, r), i);
  }

  lemma {:induction false} FinishSound(s: State, i: CallerId, c: Caller)
    requires Invariant(s) && i < |s.callers| && c.kind.Fetch?
    requires CallerSound(s.generation, s.flights, c.(phase := Done(Raised)))
    ensures Invariant(Finish(s, i, c))
  {
    hide FlightsSound, CallersSound;
    SettleSound(s, Finish(s, i, c), i);
  }

  lemma {:induction false} AnswerSound(s: State, i: CallerId, r: Reply)
    requires Invariant(s) && i < |s.callers| && s.callers[i].phase.AwaitReply?
    ensures Invariant(CallerStep(s, i, Answer(i, r)))
  {
    hide FlightsSound, PerformRefresh, Conclude, Finish;
    var c := s.callers[i];
    var c' := c.(replies := c.replies + [r]);
    assert CallerSound(s.generation, s.flights, c);
    assert CallerSound(s.generation, s.flights, c'.(phase := Done(Raised)));
    if c.generation == s.generation && |c'.replies| == 1 && NeedsRefresh(r) && (c.kind.Call? ==> r.status == 401) {
      PerformRefreshSound(s, i, c');
    }
    hide CallersSound;
    if c.kind.Fetch? {
      FinishSound(s, i, c');
      if c.generation == s.generation { ConcludeSound(s, i, c', r); }
    } else if r.Threw? || c.generation != s.generation || |c'.replies| > 1 || r.status != 401 {
      SettleSound(s, CallAnswered(s, i, c', r), i);
    }
  }

  lemma {:induction false} ResumeSound(s: State, i: CallerId, end: End)
    requires Invariant(s) && i < |s.callers| && s.callers[i].phase.AwaitRefresh? && Awaited(s, s.callers[i]) == Some(end)
    ensures Invariant(CallerStep(s, i, Resume(i)))
  {
    hide FlightsSound, Conclude, Finish;
    var c := s.callers[i];
    assert CallerSound(s.generation, s.flights, c);
    assert CallerSound(s.generation, s.flights, c.(phase := Done(Raised)));
    hide CallersSound;
    if c.kind.Fetch? {
      FinishSound(s, i, c);
      if c.generation == s.generation {
        ConcludeSound(s, i, c, c.replies[|c.replies| - 1]);
        if Refreshed(end) { SettleSound(s, SetCaller(s, i, Resend(s, c)), i); }
      }
    } else {
      if Definitive(end) {
        assert DefinitiveFlight(s.flights, c.phase.flight.value, c.generation);
      }
      SettleSound(s, CallResumed(s, i, c, end), i);
    }
  }

  lemma {:induction false} SessionRefreshedSound(s: State, i: CallerId, ok: bool)
    requires Invariant(s) && i < |s.callers| && s.callers[i].phase.AwaitSession?
    ensures Invariant(CallerStep(s, i, SessionRefreshed(i, ok)))
  {
    hide FlightsSound;
    assert CallerSound(s.generation, s.flights, s.callers[i]);
    hide CallersSound;
    SettleSound(s, CallerStep(s, i, SessionRefreshed(i, ok)), i);
  }

  lemma {:induction false} BumpSound(s: State, t: State)
    requires Invariant(s) && t.generation == s.generation + 1
    requires t.flights == s.flights && t.inFlight == s.inFlight && t.callers == s.callers && DataSound(t)
    ensures Invariant(t)
  {
    assert FlightsSound(t) by { hide CallersSound; }
    hide FlightsSound, CallersSound;
    CallersStay(s, t, |s.callers|);
  }

  lemma {:induction false} StartSound(s: State, kind: Kind)
    requires Invariant(s)
    ensures Invariant(Apply(s, Start(kind)))
  {
    var t := Apply(s, Start(kind));
    assert FlightsSound(t);
    assert CallerSound(s.generation, s.flights, t.callers[|s.callers|]);
    hide CallerSound, FlightsSound;
    assert forall i :: 0 <= i < |s.callers| ==> t.callers[i] == s.callers[i];
  }

  lemma {:induction false} StepSound(s: State, e: Event)
    requires Invariant(s)
    ensures Invariant(Apply(s, e))
  {
    hide FlightStep, FlightsSound, CallersSound, Invariant;
    match e
    case Login => BumpSound(s, Apply(s, e)) by { InvariantData(s); }
    case Clear => BumpSound(s, Apply(s, e)) by { InvariantData(s); }
    case Start(kind) => StartSound(s, kind);
    case Answer(i, r) =>
      if i < |s.callers| && s.callers[i].phase.AwaitReply? { AnswerSound(s, i, r); }
    case Resume(i) =>
      if i < |s.callers| && Awaited(s, s.callers[i]).Some? { ResumeSound(s, i, Awaited(s, s.callers[i]).value); }
    case SessionRefreshed(i, ok) =>
      if i < |s.callers| && s.callers[i].phase.AwaitSession? { SessionRefreshedSound(s, i, ok); }
    case TokenIs(f, _) => if f < |s.flights| { FlightStepSound(s, f, e); }
    case Posted(f, _) => if f < |s.flights| { FlightStepSound(s, f, e); }
    case Parsed(f, _) => if f < |s.flights| { FlightStepSound(s, f, e); }
    case Persisted(f) => if f < |s.flights| { FlightStepSound(s, f, e); }
    case Release(f) => if f < |s.flights| { FlightStepSound(s, f, e); }
  }

  lemma {:induction false} InvariantData(s: State)
    requires Invariant(s)
    ensures DataSound(s)
  {
  }

  lemma {:induction false} RunSound(events: seq<Event>)
    ensures Invariant(Run(events))
  {
    if events != [] {
      hide Invariant, Apply;
      RunSound(events[..|events| - 1]);
      StepSound(Run(events[..|events| - 1]), events[|events| - 1]);
    }
  }

  // ----- single flight

  /** In every run at most one refresh of a generation is under way, and the one of the
      current generation is the one callers join. */
  lemma {:induction false} SingleFlight(events: seq<Event>, f: FlightId, g: FlightId)
    requires var s := Run(events);
             f < |s.flights| && g < |s.flights| && s.flights[f].generation == s.flights[g].generation
             && !s.flights[f].phase.Settled? && !s.flights[g].phase.Settled?
    ensures f == g && (Run(events).flights[f].generation == Run(events).generation ==> Run(events).inFlight == Some(f))
  {
    RunSound(events);
  }

  /** The end of one flight never makes callers forget another that is under way. */
  lemma {:induction false} ReleaseForgetsOnlyItsOwn(events: seq<Event>, f: FlightId, g: FlightId)
    requires var s := Run(events);
             g < |s.flights| && s.flights[g].generation == s.generation && !s.flights[g].phase.Settled?
    ensures Run(events + [Release(f)]).inFlight == Some(g)
  {
    RunSound(events);
    assert (events + [Release(f)])[..|events|] == events;
    hide CallersSound;
  }

  // ----- callers see one generation

  /** What one event can do to caller i. */
  lemma {:induction false} CallerEvolves(s: State, e: Event, i: CallerId)
    requires i < |s.callers|
    ensures var t := Apply(s, e);
            i < |t.callers| && s.generation <= t.generation
            && t.callers[i].kind == s.callers[i].kind && t.callers[i].generation == s.callers[i].generation
            && (s.callers[i].phase.Done? ==> t.callers[i] == s.callers[i])
            && (!s.callers[i].phase.Done? && t.callers[i].phase.Done? && t.callers[i].phase.outcome.Returned? ==>
                  s.callers[i].generation == s.generation)
            && (t.callers[i] == s.callers[i] || (e.Answer? && e.caller == i) || e == Resume(i)
                || (e.SessionRefreshed? && e.caller == i && !t.callers[i].phase.Done?)
                || (e.SessionRefreshed? && e.caller == i && t.callers[i].phase == Done(Raised)))
  {
    hide FlightStep;
    match e
    case TokenIs(f, _) => if f < |s.flights| { FlightStepAdvances(s, f, e); }
    case Posted(f, _) => if f < |s.flights| { FlightStepAdvances(s, f, e); }
    case Parsed(f, _) => if f < |s.flights| { FlightStepAdvances(s, f, e); }
    case Persisted(f) => if f < |s.flights| { FlightStepAdvances(s, f, e); }
    case Release(f) => if f < |s.flights| { FlightStepAdvances(s, f, e); }
    case _ =>
  }

  lemma {:induction false} CallerKept(events: seq<Event>, k: nat, i: CallerId)
    requires k <= |events| && i < |Run(events[..k]).callers|
    ensures i < |Run(events).callers|
    ensures Run(events[..k]).generation <= Run(events).generation
    ensures Run(events).callers[i].generation == Run(events[..k]).callers[i].generation
  {
    hide Apply;
    if k == |events| {
      assert events[..k] == events;
    } else {
      var init := events[..|events| - 1];
      assert init[..k] == events[..k];
      CallerKept(init, k, i);
      CallerEvolves(Run(init), events[|events| - 1], i);
    }
  }

  /** Whenever `withSilentRefresh` returns a response, the generation was one and the same at every
      moment from its start to its return; the call was made at most twice, the second time only
      after a 401, and always under that generation. */
  lemma {:induction false} ReturnedInOneGeneration(events: seq<Event>, k: nat, i: CallerId)
    requires k <= |events| && i < |Run(events[..k]).callers| && !Run(events[..k]).callers[i].phase.Done?
    requires i < |Run(events).callers| && Run(events).callers[i].phase.Done?
    requires Run(events).callers[i].phase.outcome.Returned?
    ensures var c := Run(events).callers[i];
            Run(events[..k]).generation == c.generation == c.sentIn
            && c.sent == |c.replies| <= 2 && (c.sent == 2 ==> c.replies[0].Reply? && c.replies[0].status == 401)
  {
    hide Apply, FlightsSound, DataSound;
    assert events[..|events|] == events;
    var init, e := events[..|events| - 1], events[|events| - 1];
    assert init[..k] == events[..k];
    CallerKept(init, k, i);
    CallerEvolves(Run(init), e, i);
    RunSound(events);
    assert CallerSound(Run(events).generation, Run(events).flights, Run(events).callers[i]);
    if Run(init).callers[i].phase.Done? {
      ReturnedInOneGeneration(init, k, i);
    } else {
      RunSound(events[..k]);
      assert CallerSound(Run(events[..k]).generation, Run(events[..k]).flights, Run(events[..k]).callers[i]);
    }
  }

  /** When an event makes a call return, the call is of the generation in force before the event, and
      what it finds right after is the generation in force then. The two differ exactly when the caller
      resumes from a flight that ended definitively: then it returns its one 401, the session cleared. */
  lemma {:induction false} ReturnedGenerationExact(events: seq<Event>, e: Event, i: CallerId)
    requires i < |Run(events).callers| && !Run(events).callers[i].phase.Done?
    requires i < |Run(events + [e]).callers|
    requires Run(events + [e]).callers[i].phase.Done? && Run(events + [e]).callers[i].phase.outcome.Returned?
    ensures var s, t := Run(events), Run(events + [e]);
            var c, d := s.callers[i], t.callers[i];
            var refused := e == Resume(i) && Awaited(s, c).Some? && Definitive(Awaited(s, c).value);
            && c.generation == s.generation
            && d.phase.outcome.endGeneration == t.generation
            && (t.generation == c.generation <==> !refused)
            && (refused ==> d.replies == c.replies && |c.replies| == 1 && c.replies[0].Reply? && c.replies[0].status == 401)
  {
    hide Apply, Run;
    RunSnoc(events, e);
    RunSound(events);
    ReturnedStep(Run(events), e, i);
  }

  lemma {:induction false} ReturnedOnResume(s: State, i: CallerId)
    requires i < |s.callers| && !s.callers[i].phase.Done? && CallerSound(s.generation, s.flights, s.callers[i])
    requires i < |Apply(s, Resume(i)).callers|
    requires var d := Apply(s, Resume(i)).callers[i]; d.phase.Done? && d.phase.outcome.Returned?
    ensures var t := Apply(s, Resume(i));
            var c, d := s.callers[i], t.callers[i];
            && Awaited(s, c).Some?
            && d.phase.outcome.endGeneration == t.generation
            && (t.generation == s.generation <==> !Definitive(Awaited(s, c).value))
            && d.replies == c.replies && |c.replies| == 1 && c.replies[0].Reply? && c.replies[0].status == 401
  {
    hide Conclude;
    if s.callers[i].replies != [] {
      ConcludeNeverReturns(s, i, s.callers[i], s.callers[i].replies[|s.callers[i].replies| - 1]);
    }
  }

  lemma {:induction false} ReturnedOnAnswer(s: State, i: CallerId, r: Reply)
    requires i < |s.callers| && !s.callers[i].phase.Done?
    requires i < |Apply(s, Answer(i, r)).callers|
    requires var d := Apply(s, Answer(i, r)).callers[i]; d.phase.Done? && d.phase.outcome.Returned?
    ensures var t := Apply(s, Answer(i, r));
            t.generation == s.generation && t.callers[i].phase.outcome.endGeneration == t.generation
  {
    hide Conclude;
    ConcludeNeverReturns(s, i, s.callers[i].(replies := s.callers[i].replies + [r]), r);
  }

  lemma {:induction false} ConcludeNeverReturns(s: State, i: CallerId, c: Caller, r: Reply)
    requires i < |s.callers|
    ensures var t := Conclude(s, i, c, r);
            |t.callers| == |s.callers| && t.callers[i].phase.Done? && t.callers[i].phase.outcome.Finished?
  {
  }

  lemma {:induction false} ReturnedStep(s: State, e: Event, i: CallerId)
    requires Invariant(s) && i < |s.callers| && !s.callers[i].phase.Done?
    requires i < |Apply(s, e).callers|
    requires Apply(s, e).callers[i].phase.Done? && Apply(s, e).callers[i].phase.outcome.Returned?
    ensures var t := Apply(s, e);
            var c, d := s.callers[i], t.callers[i];
            var refused := e == Resume(i) && Awaited(s, c).Some? && Definitive(Awaited(s, c).value);
            && c.generation == s.generation
            && d.phase.outcome.endGeneration == t.generation
            && (t.generation == c.generation <==> !refused)
            && (refused ==> d.replies == c.replies && |c.replies| == 1 && c.replies[0].Reply? && c.replies[0].status == 401)
  {
    hide Apply, FlightsSound, DataSound;
    CallerEvolves(s, e, i);
    assert CallerSound(s.generation, s.flights, s.callers[i]);
    if e == Resume(i) {
      ReturnedOnResume(s, i);
    } else {
      ReturnedOnAnswer(s, i, e.reply);
    }
  }

  /** A 401, no refresh token: the response is returned, and the generation has moved on. */
  lemma {:induction false} ClearedReturnChangesGeneration()
    ensures var s := Run([Start(Call), Answer(0, Reply(401, None)), TokenIs(0, Missing), Release(0), Resume(0)]);
            |s.callers| == 1 && s.callers[0].generation == 0 && s.generation == 1
            && s.callers[0].phase == Done(Returned(true, 1))
  {
    var a, b, c, d, e := Start(Call), Answer(0, Reply(401, None)), TokenIs(0, Missing), Release(0), Resume(0);
    var r := [Reply(401, None)];
    RunSnoc([], a);
    assert Run([a]).callers == [Caller(Call, 0, 1, 0, [], AwaitReply)];
    RunSnoc([a], b);
    assert [Reply(401, None)] == [] + [Reply(401, None)];
    assert Run([a, b]) == State(0, 0, false, SignedOut, 0, Some(0), [Flight(0, AwaitToken, false)],
                                [Caller(Call, 0, 1, 0, r, AwaitRefresh(Some(0), true))]);
    var waiting := [Caller(Call, 0, 1, 0, r, AwaitRefresh(Some(0), true))];
    RunSnoc([a, b], c);
    assert [a, b] + [c] == [a, b, c];
    assert [Flight(0, AwaitToken, false)][0 := Flight(0, Settled(NoToken), false)] == [Flight(0, Settled(NoToken), false)];
    assert Run([a, b, c]) == State(0, 0, false, SignedOut, 0, Some(0), [Flight(0, Settled(NoToken), false)], waiting);
    RunSnoc([a, b, c], d);
    assert [a, b, c] + [d] == [a, b, c, d];
    assert Run([a, b, c, d]) == State(0, 0, false, SignedOut, 0, None, [Flight(0, Settled(NoToken), true)], waiting);
    RunSnoc([a, b, c, d], e);
    assert [a, b, c, d] + [e] == [a, b, c, d, e];
  }

  lemma {:induction false} RunSnoc(events: seq<Event>, e: Event)
    ensures Run(events + [e]) == Apply(Run(events), e)
  {
    assert (events + [e])[..|events|] == events;
  }

  // ----- who is shown, and who is signed out

  /** A signed-in user is shown only from a response requested in the current generation,
      and the tokens in memory are always the current generation's. */
  lemma {:induction false} VisibleUserIsCurrent(events: seq<Event>)
    ensures var s := Run(events);
            s.tokensOf == s.generation && (Visible(s).SignedIn? ==> Visible(s).requestedIn == s.generation)
  {
    RunSound(events);
  }

  /** The generation a caller's or a flight's event belongs to. */
  function Origin(s: State, e: Event): Option<nat> {
    match e
    case Login => None
    case Clear => None
    case Start(_) => None
    case Answer(i, _) => if i < |s.callers| then Some(s.callers[i].generation) else None
    case Resume(i) => if i < |s.callers| then Some(s.callers[i].generation) else None
    case SessionRefreshed(i, _) => if i < |s.callers| then Some(s.callers[i].generation) else None
    case TokenIs(f, _) => if f < |s.flights| then Some(s.flights[f].generation) else None
    case Posted(f, _) => if f < |s.flights| then Some(s.flights[f].generation) else None
    case Parsed(f, _) => if f < |s.flights| then Some(s.flights[f].generation) else None
    case Persisted(f) => if f < |s.flights| then Some(s.flights[f].generation) else None
    case Release(f) => if f < |s.flights| then Some(s.flights[f].generation) else None
  }

  /** Nothing left over from an earlier generation touches the session now in force. */
  lemma {:induction false} EarlierGenerationsHarmless(s: State, e: Event)
    requires Origin(s, e).Some? && Origin(s, e).value != s.generation
    ensures var t := Apply(s, e);
            t.generation == s.generation && t.tokensOf == s.tokensOf && t.loaded == s.loaded
            && t.data == s.data && t.dataGeneration == s.dataGeneration && |t.flights| == |s.flights|
  {
  }

  /** A reply or a flight's end that signs the session out: a 403 to a session fetch, a second reply to
      one that is a 401 or a success naming nobody, or a refresh that found no token, was denied, or was
      refused with a status that is not 408, 409, 429 or a server error. */
  predicate SignsOut(s: State, e: Event) {
    match e
    case Answer(i, r) =>
      && i < |s.callers| && s.callers[i].kind.Fetch? && s.callers[i].phase.AwaitReply?
      && s.callers[i].sentIn == s.generation && r.Reply?
      && (r.status == 403
          || (s.callers[i].sent == 2 && (r.status == 401 || (200 <= r.status < 300 && r.user.None?))))
    case Resume(i) =>
      && i < |s.callers| && s.callers[i].generation == s.generation
      && s.callers[i].phase.AwaitRefresh? && s.callers[i].phase.flight.Some?
      && var f := s.callers[i].phase.flight.value;
      && f < |s.flights| && s.flights[f].generation == s.generation && s.flights[f].phase.Settled?
      && (s.callers[i].phase.owner ==> s.flights[f].released)
      && var end := s.flights[f].phase.end;
      && (end == NoToken || end == Refused
          || (end.Failed? && end.status < 500 && end.status !in {408, 409, 429}))
    case _ => false
  }

  predicate SignedOutFrom(s: State, t: State) {
    t.generation == s.generation + 1 && Visible(t) == SignedOut && t.loaded
  }

  lemma {:induction false} SignOutOnAnswer(s: State, i: CallerId, r: Reply)
    requires CallersSound(s) && i < |s.callers|
    ensures var t := CallerStep(s, i, Answer(i, r));
            if SignsOut(s, Answer(i, r)) then SignedOutFrom(s, t) else t.generation == s.generation
  {
    assert CallerSound(s.generation, s.flights, s.callers[i]);
  }

  lemma {:induction false} SignOutOnResume(s: State, i: CallerId)
    requires CallersSound(s) && i < |s.callers|
    ensures var t := CallerStep(s, i, Resume(i));
            if SignsOut(s, Resume(i)) then SignedOutFrom(s, t) else t.generation == s.generation
  {
    assert CallerSound(s.generation, s.flights, s.callers[i]);
  }

  lemma {:induction false} SignOutStep(s: State, e: Event)
    requires Invariant(s) && !e.Login? && !e.Clear?
    ensures if SignsOut(s, e) then SignedOutFrom(s, Apply(s, e)) else Apply(s, e).generation == s.generation
  {
    hide FlightStep, CallersSound, DataSound, FlightsSound;
    match e
    case Answer(i, r) => if i < |s.callers| { SignOutOnAnswer(s, i, r); }
    case Resume(i) => if i < |s.callers| { SignOutOnResume(s, i); }
    case TokenIs(f, _) => if f < |s.flights| { FlightStepAdvances(s, f, e); }
    case Posted(f, _) => if f < |s.flights| { FlightStepAdvances(s, f, e); }
    case Parsed(f, _) => if f < |s.flights| { FlightStepAdvances(s, f, e); }
    case Persisted(f) => if f < |s.flights| { FlightStepAdvances(s, f, e); }
    case Release(f) => if f < |s.flights| { FlightStepAdvances(s, f, e); }
    case _ =>
  }

  /** In every run, a caller or flight signs the session out exactly on: a 403 to a session fetch; a
      session fetch still unauthenticated after a refresh; a refresh that failed definitively —
      in each case requested under the generation in force. */
  lemma {:induction false} SignOutExact(events: seq<Event>, e: Event)
    requires !e.Login? && !e.Clear?
    ensures var s := Run(events);
            var t := Run(events + [e]);
            (t.generation != s.generation <==> SignsOut(s, e))
            && (SignsOut(s, e) ==> SignedOutFrom(s, t))
  {
    hide Apply, Run, FlightStep, SignsOut, Invariant;
    RunSnoc(events, e);
    RunSound(events);
    SignOutStep(Run(events), e);
  }

  /** A refresh that was throttled, timed out, met a server or network error, or was overtaken
      leaves its callers' session as it was. */
  lemma {:induction false} TemporaryFailureKeepsSession(events: seq<Event>, i: CallerId, f: FlightId)
    requires var s := Run(events);
             && i < |s.callers| && s.callers[i].phase.AwaitRefresh? && s.callers[i].phase.flight == Some(f)
             && f < |s.flights| && s.flights[f].phase.Settled?
             && var end := s.flights[f].phase.end;
             (end.Failed? ==> end.status >= 500 || end.status in {408, 409, 429}) && !end.NoToken? && !end.Refused?
    ensures var s := Run(events);
            var t := Run(events + [Resume(i)]);
            t.generation == s.generation && t.tokensOf == s.tokensOf && Visible(t) == Visible(s)
  {
    hide Apply, Run;
    RunSnoc(events, Resume(i));
    TemporaryStep(Run(events), i, f);
  }

  lemma {:induction false} TemporaryStep(s: State, i: CallerId, f: FlightId)
    requires i < |s.callers| && s.callers[i].phase.AwaitRefresh? && s.callers[i].phase.flight == Some(f)
    requires f < |s.flights| && s.flights[f].phase.Settled?
    requires var end := s.flights[f].phase.end;
             (end.Failed? ==> end.status >= 500 || end.status in {408, 409, 429}) && !end.NoToken? && !end.Refused?
    ensures var t := Apply(s, Resume(i));
            t.generation == s.generation && t.tokensOf == s.tokensOf && Visible(t) == Visible(s)
  {
    assert !Definitive(s.flights[f].phase.end);
    hide Definitive, Conclude, PerformRefresh;
  }
}
