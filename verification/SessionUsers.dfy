/** Who is shown as signed in (apps/application/src/context/session.tsx). */
module SessionUsers {
  import opened Strings
  import opened Session
  import opened SessionTheorems

  /** The reply is a success whose body names this user as authenticated. */
  predicate Names(r: Reply, user: string) {
    r.Reply? && 200 <= r.status < 300 && r.user == Some(user)
  }

  /** Caller i was a session fetch of this generation and ended on a reply that names the user. */
  predicate Told(callers: seq<Caller>, i: CallerId, user: string, generation: nat) {
    && i < |callers|
    && callers[i].kind.Fetch? && callers[i].generation == generation && callers[i].phase == Done(Finished(true))
    && callers[i].replies != [] && Names(callers[i].replies[|callers[i].replies| - 1], user)
  }

  /** The user kept was told by a session fetch. */
  ghost predicate UserSound(s: State) {
    s.data.SignedIn? ==> exists i :: Told(s.callers, i, s.data.user, s.dataGeneration)
  }

  /** What every reachable state satisfies. */
  ghost predicate Reached(s: State) {
    Invariant(s) && UserSound(s)
  }

  /** A step that keeps the user, and every caller that is done. */
  lemma {:induction false} UserStays(s: State, t: State)
    requires UserSound(s) && |s.callers| <= |t.callers|
    requires forall i :: 0 <= i < |s.callers| && s.callers[i].phase.Done? ==> t.callers[i] == s.callers[i]
    requires t.data.SignedOut? || (t.data == s.data && t.dataGeneration == s.dataGeneration)
    ensures UserSound(t)
  {
    if t.data.SignedIn? {
      var i :| Told(s.callers, i, s.data.user, s.dataGeneration);
      assert Told(t.callers, i, t.data.user, t.dataGeneration);
    }
  }

  lemma {:induction false} ConcludeTells(s: State, i: CallerId, c: Caller, r: Reply)
    requires UserSound(s) && i < |s.callers| && !s.callers[i].phase.Done?
    requires c.kind.Fetch? && c.replies != [] && c.replies[|c.replies| - 1] == r
    ensures UserSound(Conclude(s, i, c, r))
  {
    var t := Conclude(s, i, c, r);
    if Ok(r) && r.user.Some? {
      assert Told(t.callers, i, t.data.user, t.dataGeneration);
    } else {
      UserStays(s, t);
    }
  }

  lemma {:induction false} PerformRefreshTells(s: State, i: CallerId, c: Caller)
    requires UserSound(s) && i < |s.callers| && !s.callers[i].phase.Done?
    ensures UserSound(PerformRefresh(s, i, c))
  {
    UserStays(s, PerformRefresh(s, i, c));
  }

  lemma {:induction false} AnswerTells(s: State, i: CallerId, r: Reply)
    requires UserSound(s) && i < |s.callers| && s.callers[i].phase.AwaitReply?
    ensures UserSound(CallerStep(s, i, Answer(i, r)))
  {
    hide UserSound, Conclude, PerformRefresh;
    var c := s.callers[i].(replies := s.callers[i].replies + [r]);
    var t := CallerStep(s, i, Answer(i, r));
    PerformRefreshTells(s, i, c);
    if c.kind.Fetch? {
      ConcludeTells(s, i, c, r);
      UserStays(s, Finish(s, i, c));
    } else if t != PerformRefresh(s, i, c) {
      UserStays(s, t);
    }
  }

  lemma {:induction false} ResumeTells(s: State, i: CallerId)
    requires UserSound(s) && i < |s.callers| && s.callers[i].phase.AwaitRefresh? && s.callers[i].replies != []
    ensures UserSound(CallerStep(s, i, Resume(i)))
  {
    hide UserSound, Conclude;
    var c := s.callers[i];
    var t := CallerStep(s, i, Resume(i));
    if c.kind.Fetch? {
      ConcludeTells(s, i, c, c.replies[|c.replies| - 1]);
      UserStays(s, Finish(s, i, c));
      UserStays(s, SetCaller(s, i, Resend(s, c)));
    } else {
      UserStays(s, t);
    }
    UserStays(s, s);
  }

  lemma {:induction false} StepTells(s: State, e: Event)
    requires Reached(s)
    ensures UserSound(Apply(s, e))
  {
    hide UserSound, FlightStep, Conclude, PerformRefresh;
    match e
    case Answer(i, r) => if i < |s.callers| && s.callers[i].phase.AwaitReply? { AnswerTells(s, i, r); }
    case Resume(i) =>
      if i < |s.callers| && s.callers[i].phase.AwaitRefresh? && s.callers[i].replies != [] { ResumeTells(s, i); }
    case TokenIs(f, _) => FlightTells(s, f, e);
    case Posted(f, _) => FlightTells(s, f, e);
    case Parsed(f, _) => FlightTells(s, f, e);
    case Persisted(f) => FlightTells(s, f, e);
    case Release(f) => FlightTells(s, f, e);
    case _ => UserStays(s, Apply(s, e));
  }

  lemma {:induction false} FlightTells(s: State, f: FlightId, e: Event)
    requires UserSound(s)
    ensures f < |s.flights| ==> UserSound(FlightStep(s, f, e))
  {
    if f < |s.flights| {
      FlightStepAdvances(s, f, e);
      hide FlightStep;
      UserStays(s, FlightStep(s, f, e));
    }
  }

  lemma {:induction false} StepReached(s: State, e: Event)
    requires Reached(s)
    ensures Reached(Apply(s, e))
  {
    hide Invariant, UserSound, Apply;
    StepSound(s, e);
    StepTells(s, e);
  }

  lemma {:induction false} RunReached(events: seq<Event>)
    ensures Reached(Run(events))
  {
    if events != [] {
      hide Reached, Apply;
      RunReached(events[..|events| - 1]);
      StepReached(Run(events[..|events| - 1]), events[|events| - 1]);
    }
  }

  /** In every run a visible user is the one that the last reply of a session fetch of the generation
      in force named. */
  lemma {:induction false} VisibleUserWasTold(events: seq<Event>, user: string)
    requires Visible(Run(events)).SignedIn? && Visible(Run(events)).user == user
    ensures var s := Run(events);
            exists i :: 0 <= i < |s.callers|
              && s.callers[i].kind.Fetch? && s.callers[i].generation == s.generation
              && s.callers[i].replies != [] && Names(s.callers[i].replies[|s.callers[i].replies| - 1], user)
  {
    RunReached(events);
    hide Run, Invariant, Visible;
    VisibleTold(Run(events));
  }

  lemma {:induction false} VisibleTold(s: State)
    requires Reached(s)
    ensures Visible(s).SignedIn? ==>
              exists i :: 0 <= i < |s.callers|
                && s.callers[i].kind.Fetch? && s.callers[i].generation == s.generation
                && s.callers[i].replies != [] && Names(s.callers[i].replies[|s.callers[i].replies| - 1], Visible(s).user)
  {
    if Visible(s).SignedIn? {
      var i: CallerId :| Told(s.callers, i, s.data.user, s.dataGeneration);
      assert s.callers[i].kind.Fetch? && s.callers[i].generation == s.generation;
    }
  }

  /** A reply that names a user, to a session fetch of the generation in force that waits for one, its
      first or the one after a refresh, shows exactly that user and ends loading; the generation stays. */
  lemma {:induction false} NamedUserIsShown(s: State, i: CallerId, r: Reply, user: string)
    requires i < |s.callers| && s.callers[i].kind.Fetch? && s.callers[i].phase.AwaitReply?
    requires s.callers[i].generation == s.generation && Names(r, user)
    ensures var t := Apply(s, Answer(i, r));
            && Visible(t).SignedIn? && Visible(t).user == user && t.loaded
            && t.generation == s.generation && t.tokensOf == s.tokensOf
  {
  }

  /** Such a fetch that gets an error other than 401 or 403, or no reply at all, ends loading and leaves
      the session as it was. */
  lemma {:induction false} ErrorKeepsUser(s: State, i: CallerId, r: Reply)
    requires i < |s.callers| && s.callers[i].kind.Fetch? && s.callers[i].phase.AwaitReply?
    requires s.callers[i].generation == s.generation
    requires r.Threw? || (!(200 <= r.status < 300) && r.status != 401 && r.status != 403)
    ensures var t := Apply(s, Answer(i, r));
            Visible(t) == Visible(s) && t.loaded && t.generation == s.generation && t.callers[i].phase == Done(Finished(false))
  {
  }

  /** A first reply that is a 401, or a success that names nobody, makes a fetch or a call of the
      generation in force wait for a refresh; a fetch changes nothing else. */
  lemma {:induction false} RefusalRefreshes(s: State, i: CallerId, r: Reply)
    requires i < |s.callers| && s.callers[i].phase.AwaitReply? && s.callers[i].replies == []
    requires s.callers[i].generation == s.generation && r.Reply?
    requires r.status == 401 || (s.callers[i].kind.Fetch? && 200 <= r.status < 300 && r.user.None?)
    ensures var t := Apply(s, Answer(i, r));
            && t.callers[i].phase.AwaitRefresh? && t.callers[i].phase.flight.Some?
            && Visible(t) == Visible(s) && t.generation == s.generation && t.loaded == s.loaded
  {
  }

  /** What a call does with its reply otherwise: any other is returned, and a second one whatever it is. */
  lemma {:induction false} OtherRepliesReturned(s: State, i: CallerId, r: Reply)
    requires i < |s.callers| && s.callers[i].kind.Call? && s.callers[i].phase.AwaitReply?
    requires s.callers[i].generation == s.generation && r.Reply? && (r.status != 401 || s.callers[i].replies != [])
    ensures var t := Apply(s, Answer(i, r));
            t.callers[i].phase.Done? && t.callers[i].phase.outcome.Returned? && t.callers[i].replies == s.callers[i].replies + [r]
  {
  }

  /** After a refresh that took place a fetch asks once more; so does a call, once the session has been
      refreshed too. */
  lemma {:induction false} RefreshResends(s: State, i: CallerId, e: Event)
    requires i < |s.callers| && s.callers[i].generation == s.generation && s.callers[i].replies != []
    requires || (e == Resume(i) && s.callers[i].kind.Fetch? && Awaited(s, s.callers[i]) == Some(Committed(true)))
             || (e == SessionRefreshed(i, true) && s.callers[i].phase.AwaitSession?)
    ensures var t := Apply(s, e);
            t.callers[i].phase.AwaitReply? && t.callers[i].sent == s.callers[i].sent + 1 && t.generation == s.generation
  {
  }
}
