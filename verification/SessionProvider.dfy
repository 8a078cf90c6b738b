/** The session provider and the silent refresh as they run: module and component state, and one
    method for each stretch of code between two awaits (apps/application/src/context/session.tsx).
    Every method is proved to do one event of the state machine in module Session, and so keeps
    what every run of that machine keeps. */
module SessionProvider {
  import opened Strings
  import S = Session
  import T = SessionTheorems
  import U = SessionUsers

  class Provider {
    var generation: nat
    var tokensOf: nat
    var loaded: bool
    var data: S.Data
    var dataGeneration: nat
    var inFlight: Option<S.FlightId>
    var flights: seq<S.Flight>
    var callers: seq<S.Caller>

    constructor ()
      ensures State() == S.INITIAL && Ready()
    {
      generation, tokensOf, loaded, data, dataGeneration := 0, 0, false, S.SignedOut, 0;
      inFlight, flights, callers := None, [], [];
    }

    function State(): S.State
      reads this
    {
      S.State(generation, tokensOf, loaded, data, dataGeneration, inFlight, flights, callers)
    }

    /** What every reachable state satisfies. */
    ghost predicate Ready()
      reads this
    {
      U.Reached(State())
    }

    /** All callers and flights belong to an earlier generation. */
    predicate Overtaken()
      reads this
    {
      && (forall i :: 0 <= i < |callers| ==> callers[i].generation < generation)
      && (forall f :: 0 <= f < |flights| ==> flights[f].generation < generation)
    }

    /** What the context value shows: a user only if the session in force was asked for them. */
    method Value() returns (shown: S.Data)
      requires Ready()
      ensures shown == S.Visible(State())
      ensures shown.SignedIn? ==> shown.requestedIn == generation && tokensOf == generation
      ensures shown.SignedIn? ==>
                exists i :: 0 <= i < |callers|
                  && callers[i].kind.Fetch? && callers[i].generation == generation
                  && callers[i].replies != [] && U.Names(callers[i].replies[|callers[i].replies| - 1], shown.user)
    {
      U.VisibleTold(State());
      shown := if dataGeneration == generation then data else S.SignedOut;
    }

    method SetSessionTokens()
      requires Ready()
      modifies this
      ensures State() == S.Apply(old(State()), S.Login)
      ensures Ready() && Overtaken() && S.Visible(State()) == S.SignedOut
    {
      OlderThanNext(State());
      generation := generation + 1;
      tokensOf := generation;
      U.StepReached(old(State()), S.Login);
    }

    method ApplySignedOut()
      modifies this
      ensures State() == S.ApplySignedOut(old(State())) && S.Visible(State()) == S.SignedOut
      ensures old(Ready()) ==> Ready() && Overtaken()
    {
      if Ready() {
        OlderThanNext(State());
        U.StepReached(State(), S.Clear);
      }
      generation := generation + 1;
      tokensOf := generation;
      dataGeneration := generation;
      data := S.SignedOut;
      loaded := true;
    }

    method StartCaller(kind: S.Kind) returns (i: S.CallerId)
      requires Ready()
      modifies this
      ensures State() == S.Apply(old(State()), S.Start(kind)) && i == |old(callers)| && Ready()
    {
      U.StepReached(State(), S.Start(kind));
      i := |callers|;
      callers := callers + [S.Caller(kind, generation, 1, generation, [], S.AwaitReply)];
    }

    method SetPhase(i: S.CallerId, phase: S.Phase)
      requires i < |callers|
      modifies this`callers
      ensures callers == old(callers)[i := old(callers)[i].(phase := phase)]
    {
      callers := callers[i := callers[i].(phase := phase)];
    }

    /** The caller waits for nothing if its generation is over, and otherwise for the one flight of
        its generation that callers join, which is the only one that can be unsettled. */
    method PerformRefresh(i: S.CallerId)
      requires i < |callers|
      modifies this`callers, this`flights, this`inFlight
      ensures State() == S.PerformRefresh(old(State()), i, old(callers[i]))
      ensures callers[i].phase.AwaitRefresh? && (callers[i].phase.flight.None? <==> callers[i].generation != generation)
      ensures old(T.FlightsSound(State())) && callers[i].phase.flight.Some? ==>
                && inFlight == callers[i].phase.flight
                && inFlight.value < |flights| && flights[inFlight.value].generation == callers[i].generation
                && !flights[inFlight.value].released
                && forall f :: 0 <= f < |flights| && flights[f].generation == generation && !flights[f].phase.Settled? ==>
                     inFlight == Some(f)
    {
      var mine := callers[i].generation;
      if mine != generation {
        SetPhase(i, S.AwaitRefresh(None, false));
        return;
      }
      if inFlight.Some? && inFlight.value < |flights| && flights[inFlight.value].generation == mine {
        SetPhase(i, S.AwaitRefresh(inFlight, false));
        return;
      }
      var n := |flights|;
      flights := flights + [S.Flight(mine, S.AwaitToken, false)];
      inFlight := Some(n);
      SetPhase(i, S.AwaitRefresh(Some(n), true));
    }

    method Finish(i: S.CallerId, authenticated: bool)
      requires i < |callers|
      modifies this`callers, this`loaded
      ensures callers == old(callers)[i := old(callers)[i].(phase := S.Done(S.Finished(authenticated)))]
      ensures loaded == (old(loaded) || old(callers[i].generation) == generation)
    {
      if callers[i].generation == generation {
        loaded := true;
      }
      SetPhase(i, S.Done(S.Finished(authenticated)));
    }

    /** `fetchSession` from `if (res.ok)` to its end. */
    method Conclude(i: S.CallerId, r: S.Reply)
      requires i < |callers| && callers[i].generation == generation
      modifies this
      ensures State() == S.Conclude(old(State()), i, old(callers[i]), r)
    {
      if S.Ok(r) {
        if r.user.Some? {
          data := S.SignedIn(r.user.value, callers[i].sentIn);
          dataGeneration := callers[i].generation;
          Finish(i, true);
        } else {
          ApplySignedOut();
          Finish(i, false);
        }
      } else if r.Reply? && (r.status == 401 || r.status == 403) {
        ApplySignedOut();
        Finish(i, false);
      } else {
        Finish(i, false);
      }
    }

    method Received(i: S.CallerId, r: S.Reply)
      requires i < |callers|
      modifies this`callers
      ensures callers == old(callers)[i := old(callers)[i].(replies := old(callers)[i].replies + [r])]
    {
      callers := callers[i := callers[i].(replies := callers[i].replies + [r])];
    }

    /** `fetchSession` after an `apiFetch`. */
    method FetchAnswered(i: S.CallerId, r: S.Reply)
      requires Ready()
      requires i < |callers| && callers[i].kind.Fetch? && callers[i].phase.AwaitReply?
      modifies this
      ensures State() == S.Apply(old(State()), S.Answer(i, r)) && Ready()
      ensures callers[i].generation == old(generation) && r.Reply? && r.user.Some? && U.Names(r, r.user.value) ==>
                S.Visible(State()).SignedIn? && S.Visible(State()).user == r.user.value && loaded
      ensures generation != old(generation) <==> old(T.SignsOut(State(), S.Answer(i, r)))
    {
      U.StepReached(State(), S.Answer(i, r));
      T.SignOutStep(State(), S.Answer(i, r));
      Received(i, r);
      ghost var received := State();
      if r.Threw? || callers[i].generation != generation {
        Finish(i, false);
        assert State() == S.Finish(received, i, received.callers[i]);
      } else if |callers[i].replies| == 1 && ((S.Ok(r) && r.user.None?) || r.status == 401) {
        PerformRefresh(i);
        assert State() == S.PerformRefresh(received, i, received.callers[i]);
      } else {
        Conclude(i, r);
        assert State() == S.Conclude(received, i, received.callers[i], r);
      }
      Overwritten(old(State()), received, i, r);
    }

    /** `withSilentRefresh` after an `apiCall`. */
    method CallAnswered(i: S.CallerId, r: S.Reply)
      requires Ready()
      requires i < |callers| && callers[i].kind.Call? && callers[i].phase.AwaitReply?
      modifies this
      ensures State() == S.Apply(old(State()), S.Answer(i, r)) && Ready()
      ensures generation != old(generation) <==> old(T.SignsOut(State(), S.Answer(i, r)))
    {
      U.StepReached(State(), S.Answer(i, r));
      T.SignOutStep(State(), S.Answer(i, r));
      Received(i, r);
      ghost var received := State();
      if r.Threw? || callers[i].generation != generation {
        SetPhase(i, S.Done(S.Raised));
      } else if |callers[i].replies| > 1 || r.status != 401 {
        SetPhase(i, S.Done(S.Returned(false, generation)));
      } else {
        PerformRefresh(i);
      }
      Overwritten(old(State()), received, i, r);
    }

    method Resend(i: S.CallerId)
      requires i < |callers|
      modifies this`callers
      ensures callers == old(callers)[i := S.Resend(old(State()), old(callers)[i])]
    {
      callers := callers[i := callers[i].(sent := callers[i].sent + 1, sentIn := generation, phase := S.AwaitReply)];
    }

    /** `fetchSession` after `performRefresh`. */
    method FetchResumed(i: S.CallerId)
      requires Ready()
      requires i < |callers| && callers[i].kind.Fetch?
      requires S.Awaited(State(), callers[i]).Some?
      modifies this
      ensures State() == S.Apply(old(State()), S.Resume(i)) && Ready()
      ensures generation != old(generation) <==> old(T.SignsOut(State(), S.Resume(i)))
    {
      U.StepReached(State(), S.Resume(i));
      T.SignOutStep(State(), S.Resume(i));
      WaitingWasAnswered(State(), i);
      var end := S.Awaited(State(), callers[i]).value;
      if callers[i].generation != generation {
        Finish(i, false);
      } else if S.Refreshed(end) {
        Resend(i);
      } else if !S.Definitive(end) {
        Finish(i, false);
      } else {
        Conclude(i, callers[i].replies[|callers[i].replies| - 1]);
      }
    }

    /** `withSilentRefresh` after `performRefresh`. */
    method CallResumed(i: S.CallerId)
      requires Ready()
      requires i < |callers| && callers[i].kind.Call?
      requires S.Awaited(State(), callers[i]).Some?
      modifies this
      ensures State() == S.Apply(old(State()), S.Resume(i)) && Ready()
      ensures var end := old(S.Awaited(State(), callers[i]).value);
              callers[i].phase.Done? && callers[i].phase.outcome.Returned? ==>
                && callers[i].phase.outcome.endGeneration == generation
                && old(generation) == callers[i].generation
                && (generation == callers[i].generation <==> !S.Definitive(end))
    {
      U.StepReached(State(), S.Resume(i));
      WaitingWasAnswered(State(), i);
      var end := S.Awaited(State(), callers[i]).value;
      if callers[i].generation != generation {
        SetPhase(i, S.Done(S.Raised));
      } else if S.Refreshed(end) {
        SetPhase(i, S.AwaitSession);
      } else {
        var clearing := S.Definitive(end);
        if clearing {
          ApplySignedOut();
        }
        SetPhase(i, S.Done(S.Returned(clearing, generation)));
      }
    }

    /** `withSilentRefresh` after `sessionRefresh`. */
    method CallSessionRefreshed(i: S.CallerId, ok: bool)
      requires Ready()
      requires i < |callers| && callers[i].phase.AwaitSession?
      modifies this
      ensures State() == S.Apply(old(State()), S.SessionRefreshed(i, ok)) && Ready()
      ensures if ok && callers[i].generation == generation
              then callers[i].phase.AwaitReply? && callers[i].sent == 2 && callers[i].sentIn == generation
              else callers[i].phase == S.Done(S.Raised)
    {
      U.StepReached(State(), S.SessionRefreshed(i, ok));
      SentOnce(State(), i);
      if !ok || callers[i].generation != generation {
        SetPhase(i, S.Done(S.Raised));
      } else {
        Resend(i);
      }
    }

    method SetFlight(f: S.FlightId, phase: S.FlightPhase)
      requires f < |flights|
      modifies this`flights
      ensures flights == old(flights)[f := old(flights)[f].(phase := phase)]
    {
      flights := flights[f := flights[f].(phase := phase)];
    }

    /** The refresh flight after `getRefreshToken`. */
    method TokenRead(f: S.FlightId, token: S.TokenRead)
      requires Ready()
      requires f < |flights| && flights[f].phase.AwaitToken?
      modifies this
      ensures State() == S.Apply(old(State()), S.TokenIs(f, token)) && Ready()
      ensures flights[f].phase.Settled? || flights[f].generation == generation
      ensures flights[f].phase.Settled? && S.Definitive(flights[f].phase.end) <==> token.Missing? && flights[f].generation == generation
    {
      U.StepReached(State(), S.TokenIs(f, token));
      if token.Unreadable? {
        SetFlight(f, S.Settled(S.Broke));
      } else if flights[f].generation != generation {
        SetFlight(f, S.Settled(S.Stale));
      } else if token.Missing? {
        SetFlight(f, S.Settled(S.NoToken));
      } else {
        SetFlight(f, S.AwaitPost);
      }
    }

    /** The refresh flight after its POST. */
    method RefreshPosted(f: S.FlightId, status: Option<int>)
      requires Ready()
      requires f < |flights| && flights[f].phase.AwaitPost?
      modifies this
      ensures State() == S.Apply(old(State()), S.Posted(f, status)) && Ready()
    {
      U.StepReached(State(), S.Posted(f, status));
      if status.None? {
        SetFlight(f, S.Settled(S.Broke));
      } else if !(200 <= status.value < 300) {
        SetFlight(f, S.Settled(S.Failed(status.value)));
      } else {
        SetFlight(f, S.AwaitJson);
      }
    }

    /** The refresh flight after reading its body, up to the write of `commitRefreshedTokens`. */
    method RefreshParsed(f: S.FlightId, body: S.RefreshBody)
      requires Ready()
      requires f < |flights| && flights[f].phase.AwaitJson?
      modifies this
      ensures State() == S.Apply(old(State()), S.Parsed(f, body)) && Ready()
      ensures tokensOf == generation
    {
      U.StepReached(State(), S.Parsed(f, body));
      match body
      case Malformed => SetFlight(f, S.Settled(S.Broke));
      case Denied => SetFlight(f, S.Settled(S.Refused));
      case Incomplete => SetFlight(f, S.Settled(S.Unclear));
      case Rotated =>
        var current := flights[f].generation == generation;
        if current {
          tokensOf := flights[f].generation;
        }
        SetFlight(f, S.AwaitCommit(current));
    }

    /** The refresh flight after the tokens were persisted. */
    method RefreshPersisted(f: S.FlightId)
      requires Ready()
      requires f < |flights| && flights[f].phase.AwaitCommit?
      modifies this
      ensures State() == S.Apply(old(State()), S.Persisted(f)) && Ready()
      ensures flights[f].phase.Settled?
      ensures S.Refreshed(flights[f].phase.end) <==> old(flights[f].phase.ok) && flights[f].generation == generation
      ensures S.Refreshed(flights[f].phase.end) ==> tokensOf == flights[f].generation
    {
      U.StepReached(State(), S.Persisted(f));
      SetFlight(f, S.Settled(S.Committed(flights[f].phase.ok && flights[f].generation == generation)));
    }

    /** The `finally` block of the flight's owner. */
    method ReleaseFlight(f: S.FlightId)
      requires Ready()
      requires f < |flights| && flights[f].phase.Settled? && !flights[f].released
      modifies this
      ensures State() == S.Apply(old(State()), S.Release(f)) && Ready()
      ensures inFlight != Some(f)
      ensures forall g :: 0 <= g < |flights| && flights[g].generation == generation && !flights[g].phase.Settled? ==> inFlight == Some(g)
    {
      U.StepReached(State(), S.Release(f));
      flights := flights[f := flights[f].(released := true)];
      if inFlight == Some(f) {
        inFlight := None;
      }
    }
  }

  /** Whoever is under way is older than the next generation. */
  lemma {:induction false} OlderThanNext(s: S.State)
    requires T.Invariant(s)
    ensures forall i :: 0 <= i < |s.callers| ==> s.callers[i].generation <= s.generation
    ensures forall f :: 0 <= f < |s.flights| ==> s.flights[f].generation <= s.generation
  {
    forall i | 0 <= i < |s.callers| ensures s.callers[i].generation <= s.generation {
      assert T.CallerSound(s.generation, s.flights, s.callers[i]);
    }
  }

  lemma {:induction false} SentOnce(s: S.State, i: S.CallerId)
    requires T.Invariant(s) && i < |s.callers| && s.callers[i].phase.AwaitSession?
    ensures s.callers[i].sent == 1
  {
    assert T.CallerSound(s.generation, s.flights, s.callers[i]);
  }

  lemma {:induction false} WaitingWasAnswered(s: S.State, i: S.CallerId)
    requires T.Invariant(s) && i < |s.callers| && s.callers[i].phase.AwaitRefresh?
    ensures s.callers[i].replies != []
  {
    assert T.CallerSound(s.generation, s.flights, s.callers[i]);
  }

  /** Storing the reply first and the caller's next phase later comes to the same. */
  lemma {:induction false} Overwritten(s: S.State, received: S.State, i: S.CallerId, r: S.Reply)
    requires i < |s.callers| && s.callers[i].phase.AwaitReply?
    requires received == s.(callers := s.callers[i := s.callers[i].(replies := s.callers[i].replies + [r])])
    ensures var c := received.callers[i];
            S.Apply(s, S.Answer(i, r))
            == if c.kind.Fetch? then S.FetchAnswered(received, i, c, r) else S.CallAnswered(received, i, c, r)
  {
    var c := received.callers[i];
    hide S.PerformRefresh, S.Conclude, S.Finish;
    Untouched(s, received, i, c);
  }

  lemma {:induction false} Untouched(s: S.State, received: S.State, i: S.CallerId, c: S.Caller)
    requires i < |s.callers| && received == s.(callers := s.callers[i := c])
    ensures S.PerformRefresh(received, i, c) == S.PerformRefresh(s, i, c)
    ensures S.Finish(received, i, c) == S.Finish(s, i, c)
    ensures forall r :: S.Conclude(received, i, c, r) == S.Conclude(s, i, c, r)
    ensures S.SetCaller(received, i, c.(phase := S.Done(S.Raised))) == S.SetCaller(s, i, c.(phase := S.Done(S.Raised)))
    ensures S.SetCaller(received, i, c.(phase := S.Done(S.Returned(false, s.generation))))
         == S.SetCaller(s, i, c.(phase := S.Done(S.Returned(false, s.generation))))
  {
  }
}
