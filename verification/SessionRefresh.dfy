/** How a token refresh runs to its end, and what those who wait for it learn
    (apps/application/src/context/session.tsx). */
module SessionRefresh {
  import opened Strings
  import opened Session
  import opened SessionTheorems

  /** The refresh of the generation in force runs through when there is a token, the server answers with a
      2xx status and new tokens, and these are persisted: it ends refreshed, the new tokens are in memory,
      and generation, session and callers are as they were. */
  lemma {:induction false} RotationRefreshes(s: State, f: FlightId, status: int)
    requires f < |s.flights| && s.flights[f].phase.AwaitToken? && s.flights[f].generation == s.generation
    requires 200 <= status < 300
    ensures var a := Apply(s, TokenIs(f, Present));
            var b := Apply(a, Posted(f, Some(status)));
            var c := Apply(b, Parsed(f, Rotated));
            var t := Apply(c, Persisted(f));
            && t.flights[f].phase == Settled(Committed(true)) && t.tokensOf == s.generation == t.generation
            && t.callers == s.callers && Visible(t) == Visible(s)
  {
    var a := Apply(s, TokenIs(f, Present));
    assert a == SetFlight(s, f, AwaitPost);
    var b := Apply(a, Posted(f, Some(status)));
    assert b == SetFlight(a, f, AwaitJson);
    var c := Apply(b, Parsed(f, Rotated));
    assert c == SetFlight(b, f, AwaitCommit(true)).(tokensOf := s.generation);
  }

  /** Each answer that does not refresh, and the end it gives the refresh. */
  lemma {:induction false} OtherAnswersEnd(s: State, f: FlightId)
    requires f < |s.flights| && s.flights[f].generation == s.generation
    ensures s.flights[f].phase.AwaitToken? ==>
              && Apply(s, TokenIs(f, Missing)).flights[f].phase == Settled(NoToken)
              && Apply(s, TokenIs(f, Unreadable)).flights[f].phase == Settled(Broke)
    ensures s.flights[f].phase.AwaitPost? ==>
              && Apply(s, Posted(f, None)).flights[f].phase == Settled(Broke)
              && forall status: int :: !(200 <= status < 300) ==> Apply(s, Posted(f, Some(status))).flights[f].phase == Settled(Failed(status))
    ensures s.flights[f].phase.AwaitJson? ==>
              && Apply(s, Parsed(f, Denied)).flights[f].phase == Settled(Refused)
              && Apply(s, Parsed(f, Malformed)).flights[f].phase == Settled(Broke)
              && Apply(s, Parsed(f, Incomplete)).flights[f].phase == Settled(Unclear)
  {
  }

  /** Whoever waits for a refresh that has ended goes on with its end, its owner once it has released it;
      whoever found its generation over goes on at once. */
  lemma {:induction false} WaitEnds(s: State, c: Caller)
    requires c.phase.AwaitRefresh?
    ensures c.phase.flight.None? ==> Awaited(s, c) == Some(Stale)
    ensures c.phase.flight.Some? ==>
              var f := c.phase.flight.value;
              Awaited(s, c) ==
                if f < |s.flights| && s.flights[f].phase.Settled? && (c.phase.owner ==> s.flights[f].released)
                then Some(s.flights[f].phase.end) else None
  {
  }

  /** A caller of the generation in force that resumes after a refresh which neither took place nor was
      refused for good ends without another request and signs nobody out: a fetch as not authenticated
      with loading over, a call with the reply it had. */
  lemma {:induction false} TemporaryEndResumes(s: State, i: CallerId, end: End)
    requires i < |s.callers| && s.callers[i].generation == s.generation && s.callers[i].replies != []
    requires Awaited(s, s.callers[i]) == Some(end)
    requires end == Broke || end == Unclear || end == Stale || end == Committed(false)
             || (end.Failed? && (end.status >= 500 || end.status == 408 || end.status == 409 || end.status == 429))
    ensures var t := Apply(s, Resume(i));
            && t.generation == s.generation && Visible(t) == Visible(s) && t.callers[i].sent == s.callers[i].sent
            && t.callers[i].phase == Done(if s.callers[i].kind.Fetch? then Finished(false) else Returned(false, s.generation))
            && (s.callers[i].kind.Fetch? ==> t.loaded)
  {
  }

  /** A call that resumes after a refresh that took place refreshes the session before it asks again. */
  lemma {:induction false} CallAwaitsSession(s: State, i: CallerId)
    requires i < |s.callers| && s.callers[i].kind.Call? && s.callers[i].generation == s.generation && s.callers[i].replies != []
    requires Awaited(s, s.callers[i]) == Some(Committed(true))
    ensures var t := Apply(s, Resume(i)); t.callers[i].phase.AwaitSession? && t.generation == s.generation && Visible(t) == Visible(s)
  {
  }
}
