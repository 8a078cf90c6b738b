/** The account store as it runs: its refs and state, and one method for each stretch of code
    between two awaits (apps/application/src/hooks/use-account-data.ts). Every method is proved
    to do one step of the state machine in module AccountData, and so keeps what every run of that
    machine keeps, whatever the server's lists are. */
module AccountStore {
  import opened Strings
  import A = AccountData

  class AccountHook {
    const server: A.Server
    var renders: seq<A.Render>
    var currentUser: Option<string>
    var effectDue: bool
    var effectRan: bool
    var generation: nat
    var inFlight: Option<A.InFlight>
    var pageBusy: Option<nat>
    var ordersCursor: Option<nat>
    var data: A.Data
    var dataOwner: Option<string>
    var loading: bool
    var refreshing: bool
    var loadingMore: bool
    var loads: seq<A.Load>
    var pages: seq<A.PageRequest>

    constructor (server: A.Server)
      ensures State() == A.INITIAL && Ready() && this.server == server
    {
      this.server := server;
      renders, currentUser, effectDue, effectRan, generation := [], None, true, false, 0;
      inFlight, pageBusy, ordersCursor, data, dataOwner := None, None, None, A.EMPTY, None;
      loading, refreshing, loadingMore, loads, pages := true, false, false, [], [];
    }

    function State(): A.State
      reads this
    {
      A.State(renders, currentUser, effectDue, effectRan, generation, inFlight, pageBusy, ordersCursor,
              data, dataOwner, loading, refreshing, loadingMore, loads, pages)
    }

    /** What every reachable state satisfies. */
    ghost predicate Ready()
      reads this
    {
      A.Invariant(server, State())
    }

    /** What the hook returns: the customer's own data, and a beginning of their orders. */
    method Value() returns (shown: A.Data)
      requires Ready()
      ensures shown == A.Visible(State())
      ensures if currentUser.None? then shown == A.EMPTY else shown.sources <= {currentUser.value}
      ensures A.Consistent(server) ==> A.ShownIsPrefix(server, State())
    {
      A.ShownSound(server, State());
      shown := if currentUser.Some? && dataOwner == currentUser then data else A.EMPTY;
    }

    method Render(loaded: bool, user: Option<string>)
      requires Ready()
      modifies this
      ensures State() == A.Apply(server, old(State()), A.Rerender(loaded, user)) && Ready()
    {
      hide A.Invariant;
      A.StepKeeps(server, State(), A.Rerender(loaded, user));
      effectDue := effectDue || renders == [] || renders[|renders| - 1].loaded != loaded || renders[|renders| - 1].user != user;
      renders := renders + [A.Render(loaded, user, dataOwner, loading, refreshing)];
      currentUser := user;
    }

    method Begin()
      modifies this`generation, this`pageBusy, this`loadingMore
      ensures State() == A.Begun(old(State()))
    {
      generation := generation + 1;
      pageBusy := None;
      loadingMore := false;
    }

    method Forget()
      modifies this`ordersCursor, this`data, this`dataOwner, this`loading, this`refreshing
      ensures State() == A.Forgotten(old(State()))
    {
      ordersCursor, data, dataOwner := None, A.EMPTY, None;
      loading, refreshing := false, false;
    }

    method AddLoad(user: Option<string>, phase: A.Phase)
      modifies this`loads
      ensures State() == A.WithLoad(old(State()), user, phase)
    {
      loads := loads + [A.Load(user, generation, currentUser, phase)];
    }

    method PerformLoad(r: A.Render, initial: bool)
      modifies this
      ensures State() == A.PerformLoad(old(State()), r, initial)
      ensures old(A.LoadsBelow(State()) && A.PagesBelow(State())) ==> A.Superseded(State(), |old(loads)|)
    {
      hide A.Begun, A.Forgotten, A.WithLoad, A.LoadsBelow, A.PagesBelow, A.Superseded;
      if A.LoadsBelow(State()) && A.PagesBelow(State()) {
        A.PerformLoadSupersedes(State(), r, initial);
      }
      Begin();
      if !r.loaded {
        AddLoad(r.user, A.Settled);
        return;
      }
      if r.user.None? {
        Forget();
        AddLoad(None, A.Settled);
        return;
      }
      if initial {
        loading := true;
      } else {
        refreshing := true;
      }
      AddLoad(r.user, A.Fetching);
    }

    /** Either the customer's load is under way already, or everything under way is superseded. */
    method Load(r: A.Render, initial: bool)
      modifies this
      ensures State() == A.StartLoad(old(State()), r, initial)
      ensures old(Ready()) ==> Ready()
      ensures old(Ready()) ==> State() == old(State()) || A.Superseded(State(), |old(loads)|)
      ensures inFlight.Some? && inFlight.value.user == r.user
    {
      hide A.PerformLoad, A.Invariant, A.LoadsBelow, A.PagesBelow;
      if Ready() {
        A.StartLoadKeeps(server, State(), r, initial);
        A.RequestsBelow(server, State());
      }
      if inFlight.Some? && inFlight.value.user == r.user {
        return;
      }
      var load := |loads|;
      PerformLoad(r, initial);
      inFlight := Some(A.InFlight(r.user, load));
    }

    /** What the effect returns: its clean-up. */
    method CleanUp()
      modifies this`generation, this`pageBusy, this`ordersCursor
      ensures State() == A.CleanedUp(old(State()))
    {
      if effectRan {
        generation := generation + 1;
        pageBusy, ordersCursor := None, None;
      }
    }

    method Empty()
      modifies this`data, this`dataOwner, this`loading, this`loadingMore, this`pageBusy, this`ordersCursor
      ensures State() == A.Emptied(old(State()))
    {
      data, dataOwner, loading := A.EMPTY, None, true;
      loadingMore, pageBusy, ordersCursor := false, None, None;
    }

    method Reset()
      modifies this
      ensures State() == A.Reset(old(State()))
    {
      hide A.CleanedUp, A.Emptied;
      CleanUp();
      Empty();
      inFlight, effectDue, effectRan := None, false, true;
    }

    /** Nothing of an earlier customer is left, neither data nor a request that could still bring some. */
    method OwnerEffect()
      requires Ready() && renders != []
      modifies this
      ensures State() == A.OwnerChanged(old(State())) && Ready()
      ensures A.NothingLeft(State()) && A.Superseded(State(), |old(loads)|)
    {
      hide A.StartLoad, A.Reset, A.Invariant, A.NothingLeft, A.Superseded;
      A.OwnerChangedKeeps(server, State());
      A.OwnerChangedClears(server, State());
      var r := renders[|renders| - 1];
      Reset();
      Load(r, true);
    }

    method Store(user: string, page: A.OrdersPage, wallet: Option<nat>, sources: set<string>)
      modifies this`ordersCursor, this`data, this`dataOwner, this`loading, this`refreshing
      ensures State() == A.Stored(old(State()), user, page, wallet, sources)
    {
      ordersCursor := page.next;
      data := A.Data(page.orders, page.next, wallet, sources);
      dataOwner := Some(user);
      loading, refreshing := false, false;
    }

    /** `performLoad` after its requests. */
    method LoadSettled(k: nat, upTo: Option<nat>, wallet: Option<nat>)
      requires Ready()
      requires k < |loads| && loads[k].phase.Fetching?
      modifies this
      ensures State() == A.Loaded(server, old(State()), k, upTo, wallet) && Ready()
      ensures old(loads[k].generation) != generation ==> data == old(data) && dataOwner == old(dataOwner)
    {
      hide A.FirstPage, A.Stored, A.Invariant;
      A.LoadedKeeps(server, State(), k, upTo, wallet);
      var l := loads[k];
      loads := loads[k := l.(phase := A.Settled)];
      if l.generation != generation || currentUser != l.user || l.user.None? {
        return;
      }
      if l.issuedUnder != l.user {
        Store(l.user.value, A.OrdersPage([], None), None, {});
        return;
      }
      var page := if upTo.Some? then A.FirstPage(server(l.user.value), upTo.value) else A.OrdersPage([], None);
      Store(l.user.value, page, wallet, {l.issuedUnder.value});
    }

    /** The `finally` of `load`. */
    method LoadFinally(k: nat)
      requires Ready()
      requires k < |loads| && loads[k].phase.Settled?
      modifies this
      ensures State() == A.Apply(server, old(State()), A.LoadFinally(k)) && Ready()
    {
      hide A.Invariant;
      A.StepKeeps(server, State(), A.LoadFinally(k));
      loads := loads[k := loads[k].(phase := A.Ended)];
      if inFlight.Some? && inFlight.value.load == k {
        inFlight := None;
      }
    }

    /** `loadMoreOrders` up to its request; the effect of the latest change of customer has run. */
    method LoadMoreOrders(closure: nat)
      requires Ready() && !effectDue
      requires closure < |renders|
      modifies this
      ensures State() == A.MoreRequested(old(State()), closure) && Ready()
      ensures State() != old(State()) ==>
                && pageBusy == Some(|pages| - 1) && old(pageBusy).None?
                && dataOwner == currentUser == Some(pages[|pages| - 1].user)
                && data.cursor == Some(pages[|pages| - 1].cursor)
    {
      hide A.Invariant;
      A.MoreRequestedKeeps(server, State(), closure);
      A.RequestStands(server, State(), closure);
      var r := renders[closure];
      if !r.loaded || r.user.None? || currentUser != r.user || r.dataOwner != r.user
         || ordersCursor.None? || r.loading || r.refreshing || inFlight.Some? || pageBusy.Some? {
        return;
      }
      pageBusy := Some(|pages|);
      loadingMore := true;
      pages := pages + [A.PageRequest(r.user.value, generation, ordersCursor.value, currentUser, A.Fetching)];
    }

    method AddPage(page: A.OrdersPage, source: string)
      modifies this`ordersCursor, this`data
      ensures State() == A.PageAdded(old(State()), page, source)
    {
      var merged := A.MergeById(data.orders, page.orders);
      ordersCursor := page.next;
      data := data.(orders := merged, cursor := page.next, sources := data.sources + {source});
    }

    method EndPage(k: nat)
      requires k < |pages|
      modifies this`pages, this`pageBusy, this`loadingMore
      ensures State() == A.PageEnded(old(State()), k)
    {
      pages := pages[k := pages[k].(phase := A.Ended)];
      if pageBusy == Some(k) {
        pageBusy, loadingMore := None, false;
      }
    }

    /** `loadMoreOrders` after its request. */
    method PageSettled(k: nat, stretch: Option<(nat, nat)>)
      requires Ready()
      requires k < |pages| && pages[k].phase.Fetching?
      modifies this
      ensures State() == A.PageLoaded(server, old(State()), k, stretch) && Ready()
      ensures A.PageOnlyAdds(server, old(State()), State(), k)
    {
      hide A.PageAfter, A.PageAdded, A.PageEnded, A.Invariant, A.PageOnlyAdds;
      A.PageLoadedAdds(server, State(), k, stretch);
      A.PageLoadedKeeps(server, State(), k, stretch);
      var p := pages[k];
      if stretch.Some? && p.issuedUnder == Some(p.user) && p.cursor <= |server(p.user)|
         && p.generation == generation && currentUser == Some(p.user) {
        AddPage(A.PageAfter(server(p.user), p.cursor, stretch.value), p.issuedUnder.value);
      }
      EndPage(k);
    }
  }
}
