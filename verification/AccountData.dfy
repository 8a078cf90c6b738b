/** Account loading and order pagination: `useAccountData`
    (apps/application/src/hooks/use-account-data.ts).

    Renders, effects, loads, page requests and their replies come in any order. The server keeps,
    for each customer, one list of orders with distinct ids and answers with stretches of it. */
module AccountData {
  import opened Integers
  import opened Strings

  datatype Order = Order(id: string, detail: nat)

  /** A page of orders; a cursor is the place in the list where the next page starts. */
  datatype OrdersPage = OrdersPage(orders: seq<Order>, next: Option<nat>)

  type Server = string -> seq<Order>

  predicate DistinctIds(orders: seq<Order>) {
    forall i, j :: 0 <= i < j < |orders| ==> orders[i].id != orders[j].id
  }

  // ----- merging pages

  /** `map.set(order.id, order)` on the map's insertion-ordered values. */
  function Put(orders: seq<Order>, o: Order): seq<Order> {
    if orders == [] then [o]
    else if orders[0].id == o.id then [o] + orders[1..]
    else [orders[0]] + Put(orders[1..], o)
  }

  function PutAll(orders: seq<Order>, page: seq<Order>): seq<Order> {
    if page == [] then orders else Put(PutAll(orders, page[..|page| - 1]), page[|page| - 1])
  }

  /** `[...new Map([...previous, ...page].map(order => [order.id, order])).values()]`. */
  method MergeById(previous: seq<Order>, page: seq<Order>) returns (merged: seq<Order>)
    ensures merged == PutAll([], previous + page)
  {
    var all := previous + page;
    merged := [];
    for i := 0 to |all|
      invariant merged == PutAll([], all[..i])
    {
      assert all[..i + 1][..i] == all[..i];
      merged := Put(merged, all[i]);
    }
    assert all[..|all|] == all;
  }

  /** The order found under an id. */
  function Find(orders: seq<Order>, id: string): Option<Order> {
    if orders == [] then None
    else if orders[0].id == id then Some(orders[0])
    else Find(orders[1..], id)
  }

  lemma {:induction false} PutFinds(orders: seq<Order>, o: Order, id: string)
    ensures Find(Put(orders, o), id) == if id == o.id then Some(o) else Find(orders, id)
  {
    if orders != [] && orders[0].id != o.id {
      PutFinds(orders[1..], o, id);
      assert ([orders[0]] + Put(orders[1..], o))[1..] == Put(orders[1..], o);
    } else if orders != [] {
      assert ([o] + orders[1..])[1..] == orders[1..];
    }
  }

  lemma {:induction false} PutReplaces(orders: seq<Order>, o: Order, k: nat)
    requires DistinctIds(orders) && k < |orders| && orders[k].id == o.id
    ensures Put(orders, o) == orders[k := o]
  {
    if k == 0 {
      assert [o] + orders[1..] == orders[0 := o];
    } else {
      var tail := orders[1..];
      assert forall i :: 0 <= i < |tail| ==> tail[i] == orders[i + 1];
      PutReplaces(tail, o, k - 1);
      assert [orders[0]] + tail[k - 1 := o] == orders[k := o];
    }
  }

  lemma {:induction false} PutFresh(orders: seq<Order>, o: Order)
    requires forall i :: 0 <= i < |orders| ==> orders[i].id != o.id
    ensures Put(orders, o) == orders + [o]
  {
    if orders != [] {
      PutFresh(orders[1..], o);
      assert [orders[0]] + (orders[1..] + [o]) == orders + [o];
    }
  }

  lemma {:induction false} PutIds(orders: seq<Order>, o: Order)
    requires DistinctIds(orders)
    ensures var r := Put(orders, o);
            DistinctIds(r) && |orders| <= |r| && forall i :: 0 <= i < |orders| ==> r[i].id == orders[i].id
  {
    hide Put;
    if k :| 0 <= k < |orders| && orders[k].id == o.id {
      PutReplaces(orders, o, k);
    } else {
      PutFresh(orders, o);
    }
  }

  /** Merging keeps ids distinct and in the order they first came in. */
  lemma {:induction false} MergeKeepsIds(orders: seq<Order>, page: seq<Order>)
    requires DistinctIds(orders)
    ensures var r := PutAll(orders, page);
            DistinctIds(r) && |orders| <= |r| && forall i :: 0 <= i < |orders| ==> r[i].id == orders[i].id
  {
    hide Put, DistinctIds;
    if page != [] {
      MergeKeepsIds(orders, page[..|page| - 1]);
      PutIds(PutAll(orders, page[..|page| - 1]), page[|page| - 1]);
    }
  }

  /** Under each id the merge holds the page's last row of that id, or else the earlier row. */
  lemma {:induction false} MergeFinds(orders: seq<Order>, page: seq<Order>, id: string)
    ensures Find(PutAll(orders, page), id) == if LastOf(page, id).Some? then LastOf(page, id) else Find(orders, id)
  {
    hide Put, Find;
    if page != [] {
      MergeFinds(orders, page[..|page| - 1], id);
      PutFinds(PutAll(orders, page[..|page| - 1]), page[|page| - 1], id);
    }
  }

  function LastOf(page: seq<Order>, id: string): Option<Order> {
    if page == [] then None
    else if page[|page| - 1].id == id then Some(page[|page| - 1])
    else LastOf(page[..|page| - 1], id)
  }

  lemma {:induction false} PutAllConcat(orders: seq<Order>, a: seq<Order>, b: seq<Order>)
    ensures PutAll(orders, a + b) == PutAll(PutAll(orders, a), b)
  {
    if b == [] {
      assert a + b == a;
    } else {
      assert (a + b)[..|a + b| - 1] == a + b[..|b| - 1];
      PutAllConcat(orders, a, b[..|b| - 1]);
    }
  }

  /** Merging a stretch of the list into a prefix that reaches it gives the longer prefix. */
  lemma {:induction false} MergeStretch(list: seq<Order>, n: nat, a: nat, b: nat)
    requires DistinctIds(list) && a <= n <= |list| && a <= b <= |list|
    ensures PutAll(list[..n], list[a..b]) == list[..if n < b then b else n]
  {
    hide Put;
    if a < b {
      var stretch := list[a..b];
      assert stretch[..|stretch| - 1] == list[a..b - 1] && stretch[|stretch| - 1] == list[b - 1];
      MergeStretch(list, n, a, b - 1);
      if b <= n {
        PutReplaces(list[..n], list[b - 1], b - 1);
        assert list[..n][b - 1 := list[b - 1]] == list[..n];
      } else {
        PutFresh(list[..b - 1], list[b - 1]);
        assert list[..b - 1] + [list[b - 1]] == list[..b];
      }
    }
  }

  /** The merge of everything shown with the next page, for pages cut from one list. */
  lemma {:induction false} MergeExtendsPrefix(list: seq<Order>, n: nat, a: nat, b: nat)
    requires DistinctIds(list) && a <= n <= b <= |list|
    ensures PutAll([], list[..n] + list[a..b]) == list[..b]
  {
    PutAllConcat([], list[..n], list[a..b]);
    MergeStretch(list, 0, 0, n);
    assert list[..0] == [] && list[0..n] == list[..n];
    MergeStretch(list, n, a, b);
  }

  // ----- the store's state

  /** Everything the account screens read; `wallet` stands for the parts other than orders.
      `sources` are the customers whose requests the data came from. */
  datatype Data = Data(orders: seq<Order>, cursor: Option<nat>, wallet: Option<nat>, sources: set<string>)

  const EMPTY := Data([], None, None, {})

  /** One render, with the state its callbacks close over. */
  datatype Render = Render(loaded: bool, user: Option<string>, dataOwner: Option<string>, loading: bool, refreshing: bool)

  datatype Phase = Fetching | Settled | Ended

  /** A run of `performLoad`; `issuedUnder` is the customer at that moment. */
  datatype Load = Load(user: Option<string>, generation: nat, issuedUnder: Option<string>, phase: Phase)

  /** A run of `loadMoreOrders` past its guards. */
  datatype PageRequest = PageRequest(user: string, generation: nat, cursor: nat, issuedUnder: Option<string>, phase: Phase)

  datatype InFlight = InFlight(user: Option<string>, load: nat)

  /** `effectDue` from a render that changes the customer until its effect has run. */
  datatype State = State(
    renders: seq<Render>,
    currentUser: Option<string>,
    effectDue: bool,
    effectRan: bool,
    generation: nat,
    inFlight: Option<InFlight>,
    pageBusy: Option<nat>,
    ordersCursor: Option<nat>,
    data: Data,
    dataOwner: Option<string>,
    loading: bool,
    refreshing: bool,
    loadingMore: bool,
    loads: seq<Load>,
    pages: seq<PageRequest>)

  /** Replies name the stretch of the server's list they hold; None is a failed request. */
  datatype Event =
    | Rerender(loaded: bool, user: Option<string>)
    | OwnerEffect
    | Refresh(closure: nat, initial: bool)
    | LoadReply(load: nat, upTo: Option<nat>, wallet: Option<nat>)
    | LoadFinally(load: nat)
    | LoadMore(closure: nat)
    | PageReply(page: nat, stretch: Option<(nat, nat)>)

  const INITIAL := State([], None, true, false, 0, None, None, None, EMPTY, None, true, false, false, [], [])

  function CursorAt(list: seq<Order>, n: nat): Option<nat> {
    if n < |list| then Some(n) else None
  }

  /** The first page. */
  function FirstPage(list: seq<Order>, upTo: nat): OrdersPage {
    var n := Min(upTo, |list|);
    OrdersPage(list[..n], CursorAt(list, n))
  }

  /** The page for a cursor: it may repeat rows before the cursor, and never skips one. */
  function PageAfter(list: seq<Order>, cursor: nat, stretch: (nat, nat)): OrdersPage
    requires cursor <= |list|
  {
    var b := Min(if stretch.1 < cursor then cursor else stretch.1, |list|);
    OrdersPage(list[Min(stretch.0, cursor)..b], CursorAt(list, b))
  }

  function Begun(s: State): State {
    s.(generation := s.generation + 1, pageBusy := None, loadingMore := false)
  }

  function Forgotten(s: State): State {
    s.(ordersCursor := None, data := EMPTY, dataOwner := None, loading := false, refreshing := false)
  }

  function WithLoad(s: State, user: Option<string>, phase: Phase): State {
    s.(loads := s.loads + [Load(user, s.generation, s.currentUser, phase)])
  }

  /** `performLoad` up to its first await. */
  function PerformLoad(s: State, r: Render, initial: bool): State {
    if !r.loaded then WithLoad(Begun(s), r.user, Settled)
    else if r.user.None? then WithLoad(Forgotten(Begun(s)), None, Settled)
    else if initial then WithLoad(Begun(s).(loading := true), r.user, Fetching)
    else WithLoad(Begun(s).(refreshing := true), r.user, Fetching)
  }

  /** `load`: joins the customer's load under way, or starts one. */
  function StartLoad(s: State, r: Render, initial: bool): State {
    if s.inFlight.Some? && s.inFlight.value.user == r.user then s
    else PerformLoad(s, r, initial).(inFlight := Some(InFlight(r.user, |s.loads|)))
  }

  /** The clean-up of the effect's previous run, if there was one. */
  function CleanedUp(s: State): State {
    if s.effectRan then s.(generation := s.generation + 1, pageBusy := None, ordersCursor := None) else s
  }

  function Emptied(s: State): State {
    s.(data := EMPTY, dataOwner := None, loading := true, loadingMore := false, pageBusy := None, ordersCursor := None)
  }

  function Reset(s: State): State {
    Emptied(CleanedUp(s)).(inFlight := None, effectDue := false, effectRan := true)
  }

  /** The owner-change effect: clean-up of the previous run, reset, first load. */
  function OwnerChanged(s: State): State
    requires s.renders != []
  {
    StartLoad(Reset(s), s.renders[|s.renders| - 1], true)
  }

  /** The store's new content; a failed orders request leaves no orders and no cursor. */
  function Stored(s: State, user: string, page: OrdersPage, wallet: Option<nat>, sources: set<string>): State {
    s.(ordersCursor := page.next, data := Data(page.orders, page.next, wallet, sources), dataOwner := Some(user),
       loading := false, refreshing := false)
  }

  function LoadSettled(s: State, k: nat): State
    requires k < |s.loads|
  {
    s.(loads := s.loads[k := s.loads[k].(phase := Settled)])
  }

  /** `performLoad` once all its requests have settled. Requests made while another customer
      was current have failed. */
  function Loaded(server: Server, s: State, k: nat, upTo: Option<nat>, wallet: Option<nat>): State
    requires k < |s.loads|
  {
    var l := s.loads[k];
    var t := LoadSettled(s, k);
    if l.generation != s.generation || s.currentUser != l.user || l.user.None? then t
    else if l.issuedUnder != l.user then Stored(t, l.user.value, OrdersPage([], None), None, {})
    else
      var page := if upTo.Some? then FirstPage(server(l.user.value), upTo.value) else OrdersPage([], None);
      Stored(t, l.user.value, page, wallet, {l.issuedUnder.value})
  }

  /** React runs an effect that is due before it handles the next press. */
  function Flushed(s: State): (t: State)
    requires s.renders != []
    ensures t.renders == s.renders && !t.effectDue
  {
    if s.effectDue then OwnerChanged(s) else s
  }

  predicate MayLoadMore(s: State, r: Render) {
    && r.loaded && r.user.Some? && s.currentUser == r.user && r.dataOwner == r.user
    && s.ordersCursor.Some? && !r.loading && !r.refreshing && s.inFlight.None? && s.pageBusy.None?
  }

  /** `loadMoreOrders` from the closure of a render, up to its request. */
  function MoreRequested(s: State, k: nat): State
    requires k < |s.renders|
  {
    var r := s.renders[k];
    if MayLoadMore(s, r)
    then s.(pages := s.pages + [PageRequest(r.user.value, s.generation, s.ordersCursor.value, s.currentUser, Fetching)],
            pageBusy := Some(|s.pages|), loadingMore := true)
    else s
  }

  /** The `finally` block: only the lock's own request releases it. */
  function PageEnded(s: State, k: nat): State
    requires k < |s.pages|
  {
    s.(pages := s.pages[k := s.pages[k].(phase := Ended)],
       pageBusy := if s.pageBusy == Some(k) then None else s.pageBusy,
       loadingMore := if s.pageBusy == Some(k) then false else s.loadingMore)
  }

  function PageAdded(s: State, page: OrdersPage, source: string): State {
    s.(ordersCursor := page.next,
       data := s.data.(orders := PutAll([], s.data.orders + page.orders), cursor := page.next, sources := s.data.sources + {source}))
  }

  /** `loadMoreOrders` once its request has settled. */
  function PageLoaded(server: Server, s: State, k: nat, stretch: Option<(nat, nat)>): State
    requires k < |s.pages|
  {
    var p := s.pages[k];
    var list := server(p.user);
    if stretch.None? || p.issuedUnder != Some(p.user) || p.cursor > |list|
       || p.generation != s.generation || s.currentUser != Some(p.user)
    then PageEnded(s, k)
    else PageEnded(PageAdded(s, PageAfter(list, p.cursor, stretch.value), p.issuedUnder.value), k)
  }

  function Apply(server: Server, s: State, e: Event): State {
    match e
    case Rerender(loaded, user) =>
      var changed := s.renders == [] || s.renders[|s.renders| - 1].loaded != loaded || s.renders[|s.renders| - 1].user != user;
      s.(renders := s.renders + [Render(loaded, user, s.dataOwner, s.loading, s.refreshing)], currentUser := user,
         effectDue := s.effectDue || changed)
    case OwnerEffect => if s.renders == [] then s else OwnerChanged(s)
    case Refresh(k, initial) => if k < |s.renders| then StartLoad(s, s.renders[k], initial) else s
    case LoadReply(k, upTo, wallet) =>
      if k < |s.loads| && s.loads[k].phase.Fetching? then Loaded(server, s, k, upTo, wallet) else s
    case LoadFinally(k) =>
      if k < |s.loads| && s.loads[k].phase.Settled?
      then s.(loads := s.loads[k := s.loads[k].(phase := Ended)],
              inFlight := if s.inFlight.Some? && s.inFlight.value.load == k then None else s.inFlight)
      else s
    case LoadMore(k) => if k < |s.renders| then MoreRequested(Flushed(s), k) else s
    case PageReply(k, stretch) =>
      if k < |s.pages| && s.pages[k].phase.Fetching? then PageLoaded(server, s, k, stretch) else s
  }

  function Run(server: Server, events: seq<Event>): State {
    if events == [] then INITIAL else Apply(server, Run(server, events[..|events| - 1]), events[|events| - 1])
  }

  /** The data the hook returns: only the current customer's own. */
  function Visible(s: State): Data {
    if s.currentUser.Some? && s.dataOwner == s.currentUser then s.data else EMPTY
  }

  // ----- what every event keeps

  /** The data is a prefix of its owner's list, up to its cursor. */
  predicate PrefixOf(list: seq<Order>, d: Data) {
    && |d.orders| <= |list|
    && d.orders == list[..|d.orders|]
    && (if d.cursor.Some? then d.cursor.value == |d.orders| else d.orders == [] || |d.orders| == |list|)
  }

  ghost predicate Consistent(server: Server) {
    forall u :: DistinctIds(server(u))
  }

  ghost predicate DataSound(server: Server, s: State) {
    && s.ordersCursor == s.data.cursor
    && (s.dataOwner.None? ==> s.data == EMPTY)
    && (s.dataOwner.Some? ==> s.data.sources <= {s.dataOwner.value})
    && (s.dataOwner.Some? && Consistent(server) ==> PrefixOf(server(s.dataOwner.value), s.data))
    && (!s.effectDue && s.dataOwner.Some? ==> s.dataOwner == s.currentUser)
  }

  predicate LoadsSound(s: State) {
    forall k :: 0 <= k < |s.loads| ==>
      && s.loads[k].generation <= s.generation
      && (s.loads[k].phase.Fetching? && s.loads[k].generation == s.generation ==>
            s.inFlight.Some? && s.inFlight.value.load == k && s.pageBusy.None?)
  }

  predicate PagesSound(s: State) {
    && (s.pageBusy.Some? ==>
          s.pageBusy.value < |s.pages| && s.pages[s.pageBusy.value].phase.Fetching?
          && s.pages[s.pageBusy.value].generation == s.generation)
    && forall k :: 0 <= k < |s.pages| ==>
         && s.pages[k].generation <= s.generation
         && s.pages[k].issuedUnder == Some(s.pages[k].user)
         && (s.pages[k].phase.Fetching? && s.pages[k].generation == s.generation ==>
               s.pageBusy == Some(k) && s.ordersCursor == Some(s.pages[k].cursor) && s.dataOwner == Some(s.pages[k].user))
  }

  predicate RendersSound(s: State) {
    s.renders != [] ==> s.currentUser == s.renders[|s.renders| - 1].user
  }

  ghost predicate Invariant(server: Server, s: State) {
    DataSound(server, s) && LoadsSound(s) && PagesSound(s) && RendersSound(s)
  }

  predicate LoadsBelow(s: State) {
    forall k :: 0 <= k < |s.loads| ==> s.loads[k].generation <= s.generation
  }

  predicate PagesBelow(s: State) {
    forall k :: 0 <= k < |s.pages| ==> s.pages[k].generation <= s.generation && s.pages[k].issuedUnder == Some(s.pages[k].user)
  }

  /** All page requests, and the first n loads, belong to an earlier generation. */
  predicate Superseded(s: State, n: nat) {
    && s.pageBusy.None?
    && (forall k :: 0 <= k < n && k < |s.loads| ==> s.loads[k].generation < s.generation)
    && (forall k :: 0 <= k < |s.pages| ==> s.pages[k].generation < s.generation)
  }

  lemma {:induction false} PerformLoadSupersedes(s: State, r: Render, initial: bool)
    requires LoadsBelow(s) && PagesBelow(s)
    ensures Superseded(PerformLoad(s, r, initial), |s.loads|)
  {
    BegunSupersedes(s);
    hide Begun, Forgotten;
  }

  lemma {:induction false} BegunSupersedes(s: State)
    requires LoadsBelow(s) && PagesBelow(s)
    ensures Superseded(Begun(s), |s.loads|) && Begun(s).loads == s.loads
    ensures Superseded(Forgotten(Begun(s)), |s.loads|) && Forgotten(Begun(s)).loads == s.loads
  {
  }

  /** A new load makes all earlier requests obsolete. */
  lemma {:induction false} NewLoad(s: State, t: State, l: Load)
    requires LoadsBelow(s) && PagesBelow(s)
    requires t.generation == s.generation + 1 && t.pages == s.pages && t.pageBusy.None?
    requires t.loads == s.loads + [l] && l.generation == t.generation
    requires t.inFlight.Some? && t.inFlight.value.load == |s.loads|
    ensures LoadsSound(t) && PagesSound(t)
  {
  }

  lemma {:induction false} PerformLoadKeepsRequests(s: State, r: Render, initial: bool)
    requires LoadsBelow(s) && PagesBelow(s)
    ensures var t := PerformLoad(s, r, initial).(inFlight := Some(InFlight(r.user, |s.loads|)));
            LoadsSound(t) && PagesSound(t)
  {
    hide LoadsSound, PagesSound, LoadsBelow, PagesBelow;
    var t := PerformLoad(s, r, initial).(inFlight := Some(InFlight(r.user, |s.loads|)));
    NewLoad(s, t, t.loads[|s.loads|]);
  }

  lemma {:induction false} BegunKeepsData(server: Server, s: State)
    requires DataSound(server, s)
    ensures DataSound(server, Begun(s)) && DataSound(server, Forgotten(Begun(s)))
  {
    hide PrefixOf;
  }

  /** Loads and the flags beside the data play no part in its soundness. */
  lemma {:induction false} SameData(server: Server, s: State, t: State)
    requires DataSound(server, s) && t.ordersCursor == s.ordersCursor && t.data == s.data && t.dataOwner == s.dataOwner
    requires t.effectDue == s.effectDue && t.currentUser == s.currentUser
    ensures DataSound(server, t)
  {
    hide PrefixOf;
  }

  lemma {:induction false} PerformLoadKeepsData(server: Server, s: State, r: Render, initial: bool)
    requires DataSound(server, s)
    ensures var t := PerformLoad(s, r, initial).(inFlight := Some(InFlight(r.user, |s.loads|)));
            DataSound(server, t) && t.renders == s.renders && t.currentUser == s.currentUser
  {
    hide DataSound;
    var t := PerformLoad(s, r, initial).(inFlight := Some(InFlight(r.user, |s.loads|)));
    BegunKeepsData(server, s);
    SameData(server, if r.loaded && r.user.None? then Forgotten(Begun(s)) else Begun(s), t);
  }

  lemma {:induction false} StartLoadKeeps(server: Server, s: State, r: Render, initial: bool)
    requires Invariant(server, s)
    ensures Invariant(server, StartLoad(s, r, initial))
  {
    assert LoadsBelow(s) && PagesBelow(s);
    hide LoadsSound, PagesSound, DataSound, PerformLoad;
    PerformLoadKeepsRequests(s, r, initial);
    PerformLoadKeepsData(server, s, r, initial);
  }

  lemma {:induction false} OwnerChangedKeeps(server: Server, s: State)
    requires Invariant(server, s) && s.renders != []
    ensures Invariant(server, OwnerChanged(s))
  {
    var t := Reset(s);
    var r := s.renders[|s.renders| - 1];
    ResetKeeps(server, s);
    hide LoadsSound, PagesSound, DataSound, Reset, PerformLoad;
    PerformLoadKeepsRequests(t, r, true);
    PerformLoadKeepsData(server, t, r, true);
  }

  /** The reset may leave a superseded load marked current; the load it starts clears that up. */
  lemma {:induction false} ResetKeeps(server: Server, s: State)
    requires Invariant(server, s) && s.renders != []
    ensures var t := Reset(s);
            DataSound(server, t) && t.inFlight.None? && t.renders == s.renders && t.currentUser == s.currentUser
            && LoadsBelow(t) && PagesBelow(t)
  {
    hide PrefixOf;
  }

  lemma {:induction false} FirstPagePrefix(list: seq<Order>, upTo: nat, wallet: Option<nat>, sources: set<string>)
    ensures var p := FirstPage(list, upTo); PrefixOf(list, Data(p.orders, p.next, wallet, sources))
  {
  }

  lemma {:induction false} StoredKeeps(server: Server, s: State, user: string, page: OrdersPage, wallet: Option<nat>, sources: set<string>)
    requires Invariant(server, s) && s.currentUser == Some(user) && s.pageBusy.None? && sources <= {user}
    requires PrefixOf(server(user), Data(page.orders, page.next, wallet, sources))
    ensures Invariant(server, Stored(s, user, page, wallet, sources))
  {
    hide PrefixOf;
  }

  lemma {:induction false} LoadSettledKeeps(server: Server, s: State, k: nat)
    requires Invariant(server, s) && k < |s.loads|
    ensures var t := LoadSettled(s, k); Invariant(server, t) && t.currentUser == s.currentUser && t.pageBusy == s.pageBusy
  {
    hide PrefixOf;
    var t := LoadSettled(s, k);
    assert forall j :: 0 <= j < |s.loads| && j != k ==> t.loads[j] == s.loads[j];
    assert t.loads[k].generation == s.loads[k].generation && t.loads[k].phase.Settled?;
  }

  lemma {:induction false} LoadedKeeps(server: Server, s: State, k: nat, upTo: Option<nat>, wallet: Option<nat>)
    requires Invariant(server, s) && k < |s.loads| && s.loads[k].phase.Fetching?
    ensures Invariant(server, Loaded(server, s, k, upTo, wallet))
  {
    var l := s.loads[k];
    assert l.generation == s.generation ==> s.pageBusy.None?;
    hide PrefixOf, FirstPage, Stored, LoadSettled, Invariant;
    LoadSettledKeeps(server, s, k);
    if l.generation == s.generation && s.currentUser == l.user && l.user.Some? {
      var t := LoadSettled(s, k);
      var list := server(l.user.value);
      NoOrdersPrefix(list, None, {});
      StoredKeeps(server, t, l.user.value, OrdersPage([], None), None, {});
      NoOrdersPrefix(list, wallet, {l.user.value});
      StoredKeeps(server, t, l.user.value, OrdersPage([], None), wallet, {l.user.value});
      if upTo.Some? {
        var page := FirstPage(list, upTo.value);
        FirstPagePrefix(list, upTo.value, wallet, {l.user.value});
        StoredKeeps(server, t, l.user.value, page, wallet, {l.user.value});
      }
    }
  }

  lemma {:induction false} NoOrdersPrefix(list: seq<Order>, wallet: Option<nat>, sources: set<string>)
    ensures PrefixOf(list, Data([], None, wallet, sources))
  {
    assert [] == list[..0];
  }

  lemma {:induction false} PageExtends(list: seq<Order>, d: Data, cursor: nat, stretch: (nat, nat), sources: set<string>)
    requires DistinctIds(list) && PrefixOf(list, d) && d.cursor == Some(cursor)
    ensures var page := PageAfter(list, cursor, stretch);
            PrefixOf(list, d.(orders := PutAll([], d.orders + page.orders), cursor := page.next, sources := sources))
  {
    var b := Min(if stretch.1 < cursor then cursor else stretch.1, |list|);
    MergeExtendsPrefix(list, cursor, Min(stretch.0, cursor), b);
  }

  lemma {:induction false} PageEndedKeeps(server: Server, s: State, k: nat)
    requires Invariant(server, s) && k < |s.pages| && s.pages[k].phase.Fetching?
    ensures Invariant(server, PageEnded(s, k))
    ensures s.pages[k].generation == s.generation ==> PageEnded(s, k).pageBusy.None?
  {
    hide PrefixOf;
    var t := PageEnded(s, k);
    assert forall j :: 0 <= j < |s.pages| && j != k ==> t.pages[j] == s.pages[j];
    assert t.pages[k].phase.Ended? && t.pages[k].generation == s.pages[k].generation;
  }

  lemma {:induction false} PageAddedKeeps(server: Server, s: State, page: OrdersPage, source: string)
    requires Invariant(server, s) && s.pageBusy.None? && s.dataOwner == Some(source)
    requires Consistent(server) ==> PrefixOf(server(source), PageAdded(s, page, source).data)
    ensures Invariant(server, PageAdded(s, page, source))
  {
    hide PrefixOf, PutAll;
  }

  lemma {:induction false} PageLoadedKeeps(server: Server, s: State, k: nat, stretch: Option<(nat, nat)>)
    requires Invariant(server, s) && k < |s.pages| && s.pages[k].phase.Fetching?
    ensures Invariant(server, PageLoaded(server, s, k, stretch))
  {
    var p := s.pages[k];
    var list := server(p.user);
    assert Consistent(server) ==> DistinctIds(list);
    assert p.generation == s.generation ==> s.data.cursor == Some(p.cursor) && s.dataOwner == Some(p.user);
    assert p.generation == s.generation && Consistent(server) ==> PrefixOf(list, s.data);
    hide PrefixOf, DistinctIds, Consistent, LoadsSound, PagesSound, DataSound;
    PageEndedKeeps(server, s, k);
    if stretch.Some? && p.generation == s.generation {
      var page := PageAfterAny(list, p.cursor, stretch.value);
      if p.cursor <= |list| && s.currentUser == Some(p.user) {
        if Consistent(server) {
          PageExtends(list, s.data, p.cursor, stretch.value, s.data.sources + {p.user});
        }
        PageAddedKeeps(server, PageEnded(s, k), page, p.user);
        assert PageEnded(PageAdded(s, page, p.user), k) == PageAdded(PageEnded(s, k), page, p.user);
      }
    }
  }

  function PageAfterAny(list: seq<Order>, cursor: nat, stretch: (nat, nat)): OrdersPage {
    if cursor <= |list| then PageAfter(list, cursor, stretch) else OrdersPage([], None)
  }

  lemma {:induction false} LoadMoreKeeps(server: Server, s: State, k: nat)
    requires Invariant(server, s) && k < |s.renders|
    ensures Invariant(server, MoreRequested(Flushed(s), k))
  {
    hide PrefixOf, OwnerChanged;
    OwnerChangedKeeps(server, s);
    MoreRequestedKeeps(server, Flushed(s), k);
  }

  lemma {:induction false} MoreRequestedKeeps(server: Server, s: State, k: nat)
    requires Invariant(server, s) && k < |s.renders| && !s.effectDue
    ensures Invariant(server, MoreRequested(s, k))
  {
    hide PrefixOf;
  }

  lemma {:induction false} StepKeeps(server: Server, s: State, e: Event)
    requires Invariant(server, s)
    ensures Invariant(server, Apply(server, s, e))
  {
    hide PrefixOf, StartLoad, OwnerChanged, Loaded, PageLoaded, Consistent, Flushed, MoreRequested;
    match e
    case Rerender(loaded, user) =>
    case OwnerEffect => if s.renders != [] { OwnerChangedKeeps(server, s); }
    case Refresh(k, initial) => if k < |s.renders| { StartLoadKeeps(server, s, s.renders[k], initial); }
    case LoadReply(k, upTo, wallet) =>
      if k < |s.loads| && s.loads[k].phase.Fetching? { LoadedKeeps(server, s, k, upTo, wallet); }
    case LoadFinally(k) =>
    case LoadMore(k) => if k < |s.renders| { LoadMoreKeeps(server, s, k); }
    case PageReply(k, stretch) =>
      if k < |s.pages| && s.pages[k].phase.Fetching? { PageLoadedKeeps(server, s, k, stretch); }
  }

  lemma {:induction false} RunKeeps(server: Server, events: seq<Event>)
    ensures Invariant(server, Run(server, events))
  {
    if events != [] {
      hide Invariant, Apply;
      RunKeeps(server, events[..|events| - 1]);
      StepKeeps(server, Run(server, events[..|events| - 1]), events[|events| - 1]);
    }
  }

  // ----- the main results

  lemma {:induction false} RequestsBelow(server: Server, s: State)
    requires Invariant(server, s)
    ensures LoadsBelow(s) && PagesBelow(s)
  {
  }

  /** A page is asked for under its customer, whose data is at hand, from the place where it ends. */
  lemma {:induction false} RequestStands(server: Server, s: State, k: nat)
    requires Invariant(server, s) && k < |s.renders| && !s.effectDue
    ensures var t := MoreRequested(s, k);
            t != s ==> t.dataOwner == t.currentUser && t.data.cursor == s.ordersCursor
  {
    MoreRequestedKeeps(server, s, k);
    hide PrefixOf;
    var t := MoreRequested(s, k);
    assert t != s ==> t.pages[|s.pages|].phase.Fetching?;
  }

  /** No data, no place to go on from, and no effect due. */
  predicate NothingLeft(s: State) {
    s.data == EMPTY && s.dataOwner.None? && s.ordersCursor.None? && !s.effectDue
  }

  lemma {:induction false} OwnerChangedClears(server: Server, s: State)
    requires Invariant(server, s) && s.renders != []
    ensures NothingLeft(OwnerChanged(s)) && Superseded(OwnerChanged(s), |s.loads|)
  {
    var t, r := Reset(s), s.renders[|s.renders| - 1];
    assert NothingLeft(t) && t.loads == s.loads;
    ResetKeeps(server, s);
    PerformLoadSupersedes(t, r, true);
    PerformLoadLeavesNothing(t, r, true);
    hide Reset, PerformLoad, LoadsBelow, PagesBelow, Invariant;
  }

  lemma {:induction false} PerformLoadLeavesNothing(s: State, r: Render, initial: bool)
    requires NothingLeft(s)
    ensures NothingLeft(PerformLoad(s, r, initial))
  {
    BegunLeavesNothing(s);
    hide Begun, Forgotten;
  }

  lemma {:induction false} BegunLeavesNothing(s: State)
    requires NothingLeft(s)
    ensures NothingLeft(Begun(s)) && NothingLeft(Forgotten(Begun(s)))
  {
  }

  /** The end of page request k gives its lock back; a request of an earlier generation changes no data,
      and any other only adds orders after those there are. */
  ghost predicate PageOnlyAdds(server: Server, s: State, t: State, k: nat) {
    && t.pageBusy != Some(k) && t.dataOwner == s.dataOwner
    && (k < |s.pages| && s.pages[k].generation != s.generation ==> t.data == s.data)
    && (Consistent(server) ==> s.data.orders <= t.data.orders)
  }

  lemma {:induction false} PageLoadedAdds(server: Server, s: State, k: nat, stretch: Option<(nat, nat)>)
    requires Invariant(server, s) && k < |s.pages| && s.pages[k].phase.Fetching?
    ensures PageOnlyAdds(server, s, PageLoaded(server, s, k, stretch), k)
  {
    var p := s.pages[k];
    var list := server(p.user);
    PageKnown(server, s, k);
    hide Invariant, Consistent, DistinctIds, PrefixOf, PutAll, PageAfter;
    if stretch.Some? && p.generation == s.generation && p.cursor <= |list| && Consistent(server) {
      PageGrows(list, s.data, p.cursor, stretch.value);
    }
  }

  lemma {:induction false} PageKnown(server: Server, s: State, k: nat)
    requires Invariant(server, s) && k < |s.pages| && s.pages[k].phase.Fetching?
    ensures var p := s.pages[k];
            p.generation == s.generation ==>
              && s.data.cursor == Some(p.cursor) && s.dataOwner == Some(p.user)
              && (Consistent(server) ==> PrefixOf(server(p.user), s.data) && DistinctIds(server(p.user)))
  {
    hide PrefixOf, DistinctIds;
  }

  lemma {:induction false} PageGrows(list: seq<Order>, d: Data, cursor: nat, stretch: (nat, nat))
    requires DistinctIds(list) && PrefixOf(list, d) && d.cursor == Some(cursor)
    ensures d.orders <= PutAll([], d.orders + PageAfter(list, cursor, stretch).orders)
  {
    var b := Min(if stretch.1 < cursor then cursor else stretch.1, |list|);
    MergeExtendsPrefix(list, cursor, Min(stretch.0, cursor), b);
  }

  /** What is shown came from requests made under the customer it is shown to. */
  predicate ShownIsOwn(s: State) {
    && (s.currentUser.None? ==> Visible(s) == EMPTY)
    && (s.currentUser.Some? ==> Visible(s).sources <= {s.currentUser.value})
  }

  /** The orders shown are a beginning of the customer's list, without repetition; the cursor the
      next page will ask for is where they end, and is gone only when there are no orders to show
      or no more to load. */
  predicate ShownIsPrefix(server: Server, s: State) {
    && s.ordersCursor == s.data.cursor
    && (s.currentUser.Some? ==>
          && var list, d := server(s.currentUser.value), Visible(s);
          && |d.orders| <= |list| && d.orders == list[..|d.orders|] && DistinctIds(d.orders)
          && (if d.cursor.Some? then d.cursor.value == |d.orders| else d.orders == [] || d.orders == list))
  }

  lemma {:induction false} ShownSound(server: Server, s: State)
    requires Invariant(server, s)
    ensures ShownIsOwn(s)
    ensures Consistent(server) ==> ShownIsPrefix(server, s)
  {
    hide LoadsSound, PagesSound;
    if s.currentUser.Some? && Consistent(server) {
      var list := server(s.currentUser.value);
      assert DistinctIds(list) && [] == list[..0] && list == list[..|list|];
    }
  }

  /** In every run, and for every server, nobody is shown what was asked for under another customer. */
  lemma {:induction false} VisibleDataIsOwn(server: Server, events: seq<Event>)
    ensures ShownIsOwn(Run(server, events))
  {
    RunKeeps(server, events);
    ShownSound(server, Run(server, events));
  }

  /** In every run the orders shown are a beginning of the customer's list, up to the cursor. */
  lemma {:induction false} VisibleOrdersArePrefix(server: Server, events: seq<Event>)
    requires Consistent(server)
    ensures ShownIsPrefix(server, Run(server, events))
  {
    RunKeeps(server, events);
    ShownSound(server, Run(server, events));
  }

  /** At most one page request of the current generation is under way, and it is the one holding
      the lock; whatever else ends leaves that lock alone. */
  lemma {:induction false} LockHeldByItsRequest(server: Server, events: seq<Event>, k: nat, e: Event)
    requires var s := Run(server, events);
             k < |s.pages| && s.pages[k].phase.Fetching? && s.pages[k].generation == s.generation
    ensures var s := Run(server, events);
            var t := Run(server, events + [e]);
            && s.pageBusy == Some(k)
            && (t.pageBusy == Some(k) || t.generation != s.generation || (e.PageReply? && e.page == k))
  {
    RunKeeps(server, events);
    assert (events + [e])[..|events|] == events;
    hide DataSound, LoadsSound, Run, Apply;
    LockStep(server, Run(server, events), e, k);
  }

  lemma {:induction false} LockStep(server: Server, s: State, e: Event, k: nat)
    requires s.pageBusy == Some(k)
    ensures var t := Apply(server, s, e);
            t.pageBusy == Some(k) || t.generation != s.generation || (e.PageReply? && e.page == k)
  {
    hide StartLoad, OwnerChanged, Loaded, PageLoaded;
    match e
    case LoadMore(i) => if i < |s.renders| { OwnerChangedMovesOn(s); }
    case OwnerEffect => if s.renders != [] { OwnerChangedMovesOn(s); }
    case Refresh(i, initial) => if i < |s.renders| { StartLoadMovesOn(s, s.renders[i], initial); }
    case LoadReply(i, upTo, wallet) => if i < |s.loads| { LoadedKeepsLock(server, s, i, upTo, wallet); }
    case PageReply(i, stretch) => if i < |s.pages| && i != k { PageKeepsLock(server, s, i, stretch); }
    case _ =>
  }

  lemma {:induction false} StartLoadMovesOn(s: State, r: Render, initial: bool)
    ensures StartLoad(s, r, initial) == s || StartLoad(s, r, initial).generation == s.generation + 1
  {
    hide PerformLoad;
    PerformLoadMovesOn(s, r, initial);
  }

  lemma {:induction false} OwnerChangedMovesOn(s: State)
    requires s.renders != []
    ensures OwnerChanged(s).generation > s.generation
  {
    hide PerformLoad;
    PerformLoadMovesOn(Reset(s), s.renders[|s.renders| - 1], true);
  }

  lemma {:induction false} PerformLoadMovesOn(s: State, r: Render, initial: bool)
    ensures PerformLoad(s, r, initial).generation == s.generation + 1
  {
    BegunMovesOn(s);
    hide Begun, Forgotten;
  }

  lemma {:induction false} BegunMovesOn(s: State)
    ensures Begun(s).generation == Forgotten(Begun(s)).generation == s.generation + 1
  {
  }

  lemma {:induction false} PageKeepsLock(server: Server, s: State, i: nat, stretch: Option<(nat, nat)>)
    requires i < |s.pages| && s.pageBusy != Some(i)
    ensures PageLoaded(server, s, i, stretch).pageBusy == s.pageBusy
  {
    hide PageAfter, PutAll;
  }

  lemma {:induction false} LoadedKeepsLock(server: Server, s: State, k: nat, upTo: Option<nat>, wallet: Option<nat>)
    requires k < |s.loads|
    ensures Loaded(server, s, k, upTo, wallet).pageBusy == s.pageBusy
  {
    hide FirstPage, Stored;
    forall user, page, held, sources ensures Stored(LoadSettled(s, k), user, page, held, sources).pageBusy == s.pageBusy {
      StoredKeepsLock(LoadSettled(s, k), user, page, held, sources);
    }
  }

  lemma {:induction false} StoredKeepsLock(s: State, user: string, page: OrdersPage, wallet: Option<nat>, sources: set<string>)
    ensures Stored(s, user, page, wallet, sources).pageBusy == s.pageBusy
  {
  }

  /** A load or page request from before the latest load or change of customer changes no data. */
  lemma {:induction false} SupersededRepliesIgnored(server: Server, s: State, e: Event)
    requires (e.LoadReply? && e.load < |s.loads| && s.loads[e.load].generation != s.generation)
          || (e.PageReply? && e.page < |s.pages| && s.pages[e.page].generation != s.generation && s.pageBusy != Some(e.page))
    ensures var t := Apply(server, s, e);
            t.data == s.data && t.dataOwner == s.dataOwner && t.ordersCursor == s.ordersCursor && t.pageBusy == s.pageBusy
            && t.loading == s.loading && t.refreshing == s.refreshing && t.loadingMore == s.loadingMore
  {
  }
}
