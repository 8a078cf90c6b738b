/** What a reply makes the account screens show (apps/application/src/hooks/use-account-data.ts). */
module AccountReplies {
  import opened Integers
  import opened Strings
  import opened AccountData

  /** The orders are the first n of the list, or all if it has no more, and the cursor is where they end
      unless they are all. */
  predicate ShowsFirst(list: seq<Order>, n: nat, d: Data) {
    if n < |list| then d.orders == list[..n] && d.cursor == Some(n)
    else d.orders == list && d.cursor.None?
  }

  /** The load's reply, to the customer for whom it was asked and with no newer load, is shown: the first
      orders of the customer's list, or none if they could not be had, and the wallet; loading ends. */
  lemma {:induction false} LoadReplyIsShown(server: Server, s: State, k: nat, user: string, upTo: Option<nat>, wallet: Option<nat>)
    requires k < |s.loads| && s.loads[k].phase.Fetching? && s.loads[k].generation == s.generation
    requires s.loads[k].user == s.loads[k].issuedUnder == s.currentUser == Some(user)
    ensures var t := Apply(server, s, LoadReply(k, upTo, wallet));
            && Visible(t).wallet == wallet && t.dataOwner == Some(user) && !t.loading && !t.refreshing
            && t.ordersCursor == Visible(t).cursor
            && (if upTo.Some? then ShowsFirst(server(user), upTo.value, Visible(t)) else Visible(t).orders == [] && Visible(t).cursor.None?)
  {
    var list := server(user);
    assert list[..|list|] == list;
  }

  /** A load whose requests went out while another customer was current leaves nothing to show. */
  lemma {:induction false} ForeignLoadShowsNothing(server: Server, s: State, k: nat, user: string, upTo: Option<nat>, wallet: Option<nat>)
    requires k < |s.loads| && s.loads[k].phase.Fetching? && s.loads[k].generation == s.generation
    requires s.loads[k].user == s.currentUser == Some(user) && s.loads[k].issuedUnder != Some(user)
    ensures var t := Apply(server, s, LoadReply(k, upTo, wallet));
            Visible(t).orders == [] && Visible(t).cursor.None? && Visible(t).wallet.None? && !t.loading && !t.refreshing
  {
  }

  /** The page's reply, in the generation it was asked in, is shown: the orders reach as far into the
      customer's list as the page does, and never less far than before; the wallet stays. */
  lemma {:induction false} PageReplyIsShown(server: Server, s: State, k: nat, user: string, from: nat, upTo: nat)
    requires Invariant(server, s) && Consistent(server)
    requires k < |s.pages| && s.pages[k].phase.Fetching? && s.pages[k].generation == s.generation
    requires s.pages[k].user == user && s.currentUser == Some(user)
    ensures var t := Apply(server, s, PageReply(k, Some((from, upTo))));
            && ShowsFirst(server(user), if upTo < |Visible(s).orders| then |Visible(s).orders| else upTo, Visible(t))
            && Visible(t).wallet == Visible(s).wallet && t.pageBusy.None? && !t.loadingMore
            && t.ordersCursor == Visible(t).cursor
  {
    var p := s.pages[k];
    var list := server(user);
    PageKnown(server, s, k);
    assert p.issuedUnder == Some(user) && s.pageBusy == Some(k);
    hide Invariant, Consistent, PutAll;
    PageShows(list, s.data, p.cursor, (from, upTo));
  }

  lemma {:induction false} PageShows(list: seq<Order>, d: Data, cursor: nat, stretch: (nat, nat))
    requires DistinctIds(list) && PrefixOf(list, d) && d.cursor == Some(cursor)
    ensures cursor <= |list|
    ensures var page := PageAfter(list, cursor, stretch);
            var n := if stretch.1 < |d.orders| then |d.orders| else stretch.1;
            && PutAll([], d.orders + page.orders) == (if n < |list| then list[..n] else list)
            && page.next == if n < |list| then Some(n) else None
  {
    var b := Min(if stretch.1 < cursor then cursor else stretch.1, |list|);
    MergeExtendsPrefix(list, cursor, Min(stretch.0, cursor), b);
    assert list[..|list|] == list;
  }

  /** A failed page request changes nothing that is shown and gives the lock back. */
  lemma {:induction false} FailedPageKeeps(server: Server, s: State, k: nat)
    requires Invariant(server, s) && k < |s.pages| && s.pages[k].phase.Fetching?
    ensures var t := Apply(server, s, PageReply(k, None));
            Visible(t) == Visible(s) && t.ordersCursor == s.ordersCursor && (s.pages[k].generation == s.generation ==> t.pageBusy.None?)
  {
    hide PrefixOf, Consistent;
  }

  /** The next page is asked for exactly when the customer who asks is the one the data is of, there are
      orders left to load, and nothing is being loaded; it is asked for from where the orders end. */
  lemma {:induction false} PageAskedExactly(server: Server, s: State, k: nat)
    requires Invariant(server, s) && k < |s.renders| && !s.effectDue
    ensures var t := Apply(server, s, LoadMore(k));
            var r := s.renders[k];
            if && r.loaded && r.user.Some? && r.user == s.currentUser && r.dataOwner == r.user && !r.loading && !r.refreshing
               && s.inFlight.None? && s.pageBusy.None? && s.data.cursor.Some?
            then
              && |t.pages| == |s.pages| + 1 && t.pages[..|s.pages|] == s.pages && t.pageBusy == Some(|s.pages|) && t.loadingMore
              && t.pages[|s.pages|] == PageRequest(r.user.value, s.generation, s.data.cursor.value, r.user, Fetching)
              && t.data == s.data
            else t == s
  {
    hide PrefixOf, Consistent;
  }

  /** From s to t a load was started for render r; it asks the server exactly if the session is known
      and somebody is signed in. */
  predicate LoadStarted(s: State, t: State, r: Render) {
    && |t.loads| == |s.loads| + 1 && t.loads[..|s.loads|] == s.loads && t.inFlight == Some(InFlight(r.user, |s.loads|))
    && t.generation == s.generation + 1
    && t.loads[|s.loads|] == Load(r.user, s.generation + 1, s.currentUser, if r.loaded && r.user.Some? then Fetching else Settled)
  }

  /** What the start of a load does to what is shown: if it is known that nobody is signed in, nothing is
      left; otherwise the data stays, and loading or refreshing begins if the server is asked. */
  predicate ShownAtStart(s: State, t: State, r: Render, initial: bool) {
    if r.loaded && r.user.None? then
      t.data == EMPTY && t.dataOwner.None? && !t.loading && !t.refreshing
    else
      && t.data == s.data && t.dataOwner == s.dataOwner
      && t.loading == (s.loading || (r.loaded && initial)) && t.refreshing == (s.refreshing || (r.loaded && !initial))
  }

  /** A refresh joins the load that is under way for its customer, and otherwise starts one. */
  lemma {:induction false} RefreshExact(server: Server, s: State, k: nat, initial: bool)
    requires k < |s.renders|
    ensures var t := Apply(server, s, Refresh(k, initial));
            var r := s.renders[k];
            if s.inFlight.Some? && s.inFlight.value.user == r.user then t == s
            else LoadStarted(s, t, r) && ShownAtStart(s, t, r, initial)
  {
    LoadStarts(s, s.renders[k], initial);
    hide PerformLoad, LoadStarted, ShownAtStart;
  }

  lemma {:induction false} LoadStarts(s: State, r: Render, initial: bool)
    ensures var t := PerformLoad(s, r, initial).(inFlight := Some(InFlight(r.user, |s.loads|)));
            LoadStarted(s, t, r) && ShownAtStart(s, t, r, initial)
  {
    BegunOnly(s);
    hide Begun, Forgotten;
  }

  lemma {:induction false} BegunOnly(s: State)
    ensures Begun(s) == s.(generation := s.generation + 1, pageBusy := None, loadingMore := false)
    ensures Forgotten(Begun(s)) == Begun(s).(ordersCursor := None, data := EMPTY, dataOwner := None, loading := false, refreshing := false)
  {
  }

  /** A render makes its user the current one, and a change of the user, or of what is known of the
      session, calls for the effect of a new owner. */
  lemma {:induction false} RenderCallsForEffect(server: Server, s: State, loaded: bool, user: Option<string>)
    ensures var t := Apply(server, s, Rerender(loaded, user));
            && t.currentUser == user && t.data == s.data && t.dataOwner == s.dataOwner && t.generation == s.generation
            && (t.effectDue <==>
                s.effectDue || s.renders == []
                || s.renders[|s.renders| - 1].user != user || s.renders[|s.renders| - 1].loaded != loaded)
  {
  }

  /** That effect starts a load for the latest render from nothing, whatever was under way. */
  lemma {:induction false} OwnerEffectLoads(server: Server, s: State)
    requires s.renders != []
    ensures var t := Apply(server, s, OwnerEffect);
            var r := s.renders[|s.renders| - 1];
            && |t.loads| == |s.loads| + 1 && t.inFlight == Some(InFlight(r.user, |s.loads|)) && t.pageBusy.None?
            && t.loads[|s.loads|] == Load(r.user, t.generation, s.currentUser, if r.loaded && r.user.Some? then Fetching else Settled)
            && t.data == EMPTY && t.dataOwner.None? && t.ordersCursor.None? && !t.effectDue
            && t.loading == (!r.loaded || r.user.Some?)
  {
    var u, r := Reset(s), s.renders[|s.renders| - 1];
    assert u.inFlight.None? && u.loads == s.loads && u.data == EMPTY && u.dataOwner.None? && u.ordersCursor.None? && u.loading
        && !u.effectDue && u.currentUser == s.currentUser && u.pageBusy.None?;
    hide Reset;
    LoadStarts(u, r, true);
    LoadKeepsRest(u, r, true);
    hide PerformLoad;
  }

  lemma {:induction false} LoadKeepsRest(s: State, r: Render, initial: bool)
    ensures var t := PerformLoad(s, r, initial);
            && t.pageBusy.None? && t.effectDue == s.effectDue
            && t.ordersCursor == if r.loaded && r.user.None? then None else s.ordersCursor
  {
    BegunOnly(s);
    hide Begun, Forgotten;
  }

  /** A load that has ended makes room for the next, and for pages. */
  lemma {:induction false} EndedLoadMakesRoom(server: Server, s: State, k: nat)
    requires k < |s.loads| && s.loads[k].phase.Settled?
    ensures var t := Apply(server, s, LoadFinally(k));
            && t.inFlight == (if s.inFlight.Some? && s.inFlight.value.load == k then None else s.inFlight)
            && t.loads[k].phase.Ended? && t.data == s.data && t.dataOwner == s.dataOwner
  {
  }
}
