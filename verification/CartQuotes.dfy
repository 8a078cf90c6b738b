/** Which server quote the cart may call its own: `useCartPricing`
    (apps/application/src/hooks/use-cart-pricing.ts) with the key of
    apps/application/src/lib/cart-quote.ts.

    The hook is a state machine over renders, effects, timers, replies, coupon approvals and
    refreshes, in any order. A quote remembers the request it answers. */
module CartQuotes {
  import opened Strings
  import J = JsonText

  // ----- the key

  datatype Tip = NoTip | Tip10 | Tip15 | Tip20

  datatype Selection = Selection(promoCode: Option<string>, applyWingsReward: bool)

  /** `CartQuoteInput`, its items already as `quoteItems` sends them. */
  datatype RawInput = RawInput(
    locationId: string,
    items: seq<J.Value>,
    fulfillmentType: string,
    scheduledFor: Option<string>,
    tip: Tip,
    selection: Selection,
    deliveryQuoteToken: Option<string>,
    deliveryAddress: Option<J.Value>)

  /** Every value in it is one that JSON has. */
  ghost predicate Valid(i: RawInput) {
    && (forall k :: 0 <= k < |i.items| ==> J.Json(i.items[k]))
    && (i.deliveryAddress.Some? ==> J.Json(i.deliveryAddress.value))
  }

  type QuoteInput = i: RawInput | Valid(i)
    witness RawInput("", [], "", None, NoTip, Selection(None, false), None, None)

  function TipValue(t: Tip): J.Value {
    match t
    case NoTip => J.Str("none")
    case Tip10 => J.Num("10")
    case Tip15 => J.Num("15")
    case Tip20 => J.Num("20")
  }

  function OrNull(s: Option<string>): J.Value {
    if s.Some? then J.Str(s.value) else J.Null
  }

  function KeyFields(i: RawInput, customer: string): seq<J.Field> {
    [J.Field("locationId", J.Str(i.locationId)), J.Field("items", J.Arr(i.items)),
     J.Field("fulfillmentType", J.Str(i.fulfillmentType)), J.Field("scheduledFor", OrNull(i.scheduledFor)),
     J.Field("driverTipPercent", TipValue(i.tip)), J.Field("promoCode", OrNull(i.selection.promoCode)),
     J.Field("applyWingsReward", J.Bool(i.selection.applyWingsReward))]
    + (if i.deliveryQuoteToken.Some? then [J.Field("deliveryQuoteToken", J.Str(i.deliveryQuoteToken.value))] else [])
    + (if i.deliveryAddress.Some? then [J.Field("deliveryAddress", i.deliveryAddress.value)] else [])
    + [J.Field("customerKey", J.Str(customer))]
  }

  /** `cartQuoteKey`. */
  function QuoteKey(i: QuoteInput, customer: string): string {
    J.Stringify(J.Obj(KeyFields(i, customer)))
  }

  lemma {:induction false} KeyFieldsJson(i: QuoteInput, customer: string)
    ensures J.Json(J.Obj(KeyFields(i, customer)))
  {
    var fs := KeyFields(i, customer);
    forall k | 0 <= k < |fs| ensures J.Json(fs[k].value) {
    }
  }

  lemma {:induction false} KeyFieldsDetermine(i: RawInput, c: string, j: RawInput, d: string)
    requires KeyFields(i, c) == KeyFields(j, d)
    ensures i == j && c == d
  {
    var f, g := KeyFields(i, c), KeyFields(j, d);
    assert f[0] == g[0] && f[1] == g[1] && f[2] == g[2] && f[3] == g[3] && f[4] == g[4] && f[5] == g[5] && f[6] == g[6];
    assert f[|f| - 1] == g[|g| - 1];
    assert f[7] == g[7];
    assert |f| > 8 ==> f[8] == g[8];
  }

  /** Two requests have one key exactly when they agree in every field and in the customer. */
  lemma {:induction false} KeyExact(i: QuoteInput, c: string, j: QuoteInput, d: string)
    ensures QuoteKey(i, c) == QuoteKey(j, d) <==> i == j && c == d
  {
    hide KeyFields, J.Stringify, J.Json;
    if QuoteKey(i, c) == QuoteKey(j, d) {
      KeyFieldsJson(i, c);
      KeyFieldsJson(j, d);
      J.StringifyInjective(J.Obj(KeyFields(i, c)), J.Obj(KeyFields(j, d)));
      KeyFieldsDetermine(i, c, j, d);
    }
  }

  // ----- the hook's state

  datatype Render = Render(input: QuoteInput, customer: string, ready: bool, loaded: bool)

  /** A server reply to the request for `input` by `customer`. */
  datatype Quote = Quote(input: QuoteInput, customer: string, payable: int)

  /** `visit` and `refreshes` record when the quote was accepted, `byCoupon` how. */
  datatype Priced = Priced(key: string, displayKey: string, quote: Quote, byCoupon: bool, visit: nat, refreshes: nat)

  datatype EffectPhase = Timer | Asked(generation: nat) | Over

  /** One run of the pricing effect. */
  datatype Effect = Effect(render: Render, generation: nat, cancelled: bool, phase: EffectPhase, refreshes: nat)

  datatype ValidationPhase = Validating | Answered(quote: Quote) | Closed

  /** One `requestSelection` call and what comes of it. */
  datatype Validation = Validation(render: Render, selection: Selection, generation: nat, phase: ValidationPhase)

  /** `visit` counts the changes of the rendered key, `refreshes` the calls of `refresh`;
      `shown` and `displayed` are `quote` and `displayQuote` of the latest render. */
  datatype State = State(
    renders: seq<Render>,
    latest: string,
    authoritativeKey: Option<string>,
    quoteGeneration: nat,
    mounted: bool,
    priced: Option<Priced>,
    renderedPriced: Option<Priced>,
    failure: Option<string>,
    retry: nat,
    dependencies: Option<(string, bool, nat)>,
    effects: seq<Effect>,
    validations: seq<Validation>,
    shown: Option<Priced>,
    displayed: Option<Priced>,
    visit: nat,
    refreshes: nat)

  datatype Event =
    | Rerender(render: Render)
    | Effects
    | TimerFires(effect: nat)
    | Reply(effect: nat, payable: Option<int>)
    | RequestSelection(closure: nat, selection: Selection)
    | SelectionReply(validation: nat, payable: Option<int>)
    | AcceptSelection(validation: nat)
    | Refresh
    | Unmount

  function Key(r: Render): string { QuoteKey(r.input, r.customer) }

  function DisplayKey(r: Render): string { QuoteKey(r.input.(tip := NoTip), r.customer) }

  function PricedFor(q: Quote, byCoupon: bool, s: State, refreshes: nat): Priced {
    Priced(QuoteKey(q.input, q.customer), QuoteKey(q.input.(tip := NoTip), q.customer), q, byCoupon, s.visit, refreshes)
  }

  /** The state the first render leaves: the refs at their initial values. */
  function Initial(r: Render): State {
    State([r], Key(r), None, 0, true, None, None, None, 0, None, [], [], None, None, 0, 0)
  }

  /** The render's own assignments to the refs. */
  function RefsAssigned(s: State, r: Render): State {
    var key := Key(r);
    s.(renders := s.renders + [r], latest := key,
       authoritativeKey := if s.latest != key && s.authoritativeKey != Some(key) then None else s.authoritativeKey,
       visit := if s.latest != key then s.visit + 1 else s.visit)
  }

  /** What the render shows, its refs assigned. */
  function QuotesShown(s: State, r: Render): State {
    var key := Key(r);
    var usable := r.ready && r.loaded && s.priced.Some?;
    var shown := if usable && s.authoritativeKey == Some(key) && s.priced.value.key == key then s.priced else None;
    var displayed :=
      if shown.None? && usable && s.failure != Some(key) && s.priced.value.displayKey == DisplayKey(r)
      then s.priced else shown;
    s.(renderedPriced := s.priced, shown := shown, displayed := displayed)
  }

  function Rerendered(s: State, r: Render): State {
    QuotesShown(RefsAssigned(s, r), r)
  }

  /** `cancelled = true; clearTimeout(timeout)` for the latest run of the effect. */
  function Cancelled(effects: seq<Effect>): seq<Effect> {
    if effects == [] then [] else effects[|effects| - 1 := effects[|effects| - 1].(cancelled := true)]
  }

  /** The clean-up of the previous run, and the effect that drops prices when not ready. */
  function CleanedUp(s: State, r: Render): State {
    var dropped := (s.dependencies.None? || s.dependencies.value.1 != r.ready) && !r.ready;
    s.(dependencies := Some((Key(r), r.ready, s.retry)), effects := Cancelled(s.effects),
       priced := if dropped then None else s.priced)
  }

  /** A new run of the pricing effect, up to its timer. */
  function Started(s: State, r: Render): State {
    s.(priced := if s.priced.Some? && s.priced.value.displayKey == DisplayKey(r) then s.priced else None,
       failure := None,
       quoteGeneration := s.quoteGeneration + 1,
       effects := s.effects + [Effect(r, s.quoteGeneration + 1, false, Timer, s.refreshes)])
  }

  /** The effects after the latest render. */
  function EffectsRun(s: State): State
    requires s.renders != []
  {
    var r := s.renders[|s.renders| - 1];
    if s.dependencies == Some((Key(r), r.ready, s.retry)) then s
    else if !r.ready || !r.loaded || r.input.items == []
            || (s.renderedPriced.Some? && s.renderedPriced.value.key == Key(r) && s.authoritativeKey == Some(Key(r)))
    then CleanedUp(s, r)
    else Started(CleanedUp(s, r), r)
  }

  predicate RequestCurrent(s: State, start: string, generation: nat) {
    s.mounted && s.latest == start && s.quoteGeneration == generation
  }

  function Replied(s: State, k: nat, payable: Option<int>): State
    requires k < |s.effects| && s.effects[k].phase.Asked?
  {
    var e := s.effects[k];
    var key := Key(e.render);
    var t := s.(effects := s.effects[k := e.(phase := Over)]);
    if e.cancelled || s.latest != key || s.quoteGeneration != e.generation then t
    else if payable.Some? && RequestCurrent(s, key, e.phase.generation) then
      t.(authoritativeKey := Some(key), failure := None,
         priced := Some(PricedFor(Quote(e.render.input, e.render.customer, payable.value), false, s, e.refreshes)))
    else t.(priced := None, failure := Some(key))
  }

  function Accepted(s: State, k: nat): State
    requires k < |s.validations| && s.validations[k].phase.Answered?
  {
    var p := PricedFor(s.validations[k].phase.quote, true, s, s.refreshes);
    s.(validations := s.validations[k := s.validations[k].(phase := Closed)],
       quoteGeneration := s.quoteGeneration + 1, authoritativeKey := Some(p.key), priced := Some(p), failure := None)
  }

  function Apply(s: State, e: Event): State
    requires s.renders != []
  {
    match e
    case Rerender(r) => Rerendered(s, r)
    case Effects => EffectsRun(s)
    case TimerFires(k) =>
      if k < |s.effects| && s.effects[k].phase.Timer? && !s.effects[k].cancelled
      then s.(effects := s.effects[k := s.effects[k].(phase := Asked(s.quoteGeneration))])
      else s
    case Reply(k, payable) =>
      if k < |s.effects| && s.effects[k].phase.Asked? then Replied(s, k, payable) else s
    case RequestSelection(k, selection) =>
      if k < |s.renders|
      then s.(validations := s.validations + [Validation(s.renders[k], selection, s.quoteGeneration, Validating)])
      else s
    case SelectionReply(k, payable) =>
      if k < |s.validations| && s.validations[k].phase.Validating? then
        var v := s.validations[k];
        var phase :=
          if payable.Some? && RequestCurrent(s, Key(v.render), v.generation)
          then Answered(Quote(v.render.input.(selection := v.selection), v.render.customer, payable.value))
          else Closed;
        s.(validations := s.validations[k := v.(phase := phase)])
      else s
    case AcceptSelection(k) =>
      if k < |s.validations| && s.validations[k].phase.Answered? then Accepted(s, k) else s
    case Refresh =>
      s.(quoteGeneration := s.quoteGeneration + 1, priced := None, failure := None, retry := s.retry + 1,
         refreshes := s.refreshes + 1)
    case Unmount => s.(mounted := false, effects := Cancelled(s.effects))
  }

  function Run(first: Render, events: seq<Event>): (s: State)
    ensures s.renders != []
  {
    if events == [] then Initial(first)
    else
      var s := Run(first, events[..|events| - 1]);
      ApplyKeepsRenders(s, events[|events| - 1]);
      Apply(s, events[|events| - 1])
  }

  lemma {:induction false} ApplyKeepsRenders(s: State, e: Event)
    requires s.renders != []
    ensures s.renders <= Apply(s, e).renders
  {
    hide QuoteKey;
  }

  function LatestRender(s: State): Render
    requires s.renders != []
  {
    s.renders[|s.renders| - 1]
  }

  // ----- what every event keeps

  /** A stored quote is filed under the keys of the request it answers. */
  predicate Filed(p: Option<Priced>) {
    p.Some? ==>
      && p.value.key == QuoteKey(p.value.quote.input, p.value.quote.customer)
      && p.value.displayKey == QuoteKey(p.value.quote.input.(tip := NoTip), p.value.quote.customer)
  }

  /** Accepted during this visit to the key, or by a coupon approved for this key during the one before. */
  predicate OfThisVisit(p: Priced, visit: nat) {
    p.visit == visit || (p.byCoupon && p.visit + 1 == visit)
  }

  /** The authoritative quote, before a render has looked at it. */
  predicate AuthoritySound(s: State) {
    s.authoritativeKey.Some? && s.priced.Some? ==>
      var p := s.priced.value;
      && p.key == s.authoritativeKey.value
      && ((p.visit == s.visit && (p.byCoupon || s.latest == p.key))
          || (p.byCoupon && p.visit + 1 == s.visit && s.latest == p.key))
  }

  predicate ShownSound(s: State)
    requires s.renders != []
  {
    && s.latest == Key(LatestRender(s))
    && (s.shown.Some? ==> s.shown.value.key == s.latest && OfThisVisit(s.shown.value, s.visit))
    && (s.displayed.Some? ==> s.displayed.value.displayKey == DisplayKey(LatestRender(s)))
  }

  predicate EffectsSound(s: State) {
    && (s.priced.Some? && !s.priced.value.byCoupon ==> s.priced.value.refreshes == s.refreshes)
    && (forall k :: 0 <= k < |s.effects| ==>
          && s.effects[k].generation <= s.quoteGeneration
          && (s.effects[k].generation == s.quoteGeneration ==> s.effects[k].refreshes == s.refreshes))
    && (forall k :: 0 <= k < |s.validations| ==> s.validations[k].generation <= s.quoteGeneration)
    && OnlyLastRuns(s.effects)
  }

  /** At most the latest run of the effect is not cancelled. */
  predicate OnlyLastRuns(effects: seq<Effect>) {
    forall k :: 0 <= k < |effects| - 1 ==> effects[k].cancelled
  }

  predicate Invariant(s: State) {
    && s.renders != []
    && Filed(s.priced) && Filed(s.shown) && Filed(s.displayed)
    && AuthoritySound(s) && ShownSound(s) && EffectsSound(s)
  }

  lemma {:induction false} RerenderKeeps(s: State, r: Render)
    requires Invariant(s)
    ensures Invariant(Rerendered(s, r))
  {
    var t := Rerendered(s, r);
    assert LatestRender(t) == r;
    hide QuoteKey;
    if t.shown.Some? {
      var q := t.shown.value.quote;
      KeyExact(q.input, q.customer, r.input, r.customer);
    }
  }

  lemma {:induction false} EffectsKeep(s: State)
    requires Invariant(s)
    ensures Invariant(EffectsRun(s))
  {
    hide QuoteKey;
    assert EffectsSound(EffectsRun(s)) by { EffectsKeepStamps(s); }
    hide EffectsSound;
  }

  lemma {:induction false} EffectsKeepStamps(s: State)
    requires s.renders != [] && EffectsSound(s)
    ensures EffectsSound(EffectsRun(s))
  {
    hide Key, DisplayKey;
    var t := EffectsRun(s);
    assert forall k :: 0 <= k < |s.effects| ==>
        t.effects[k].generation == s.effects[k].generation && t.effects[k].refreshes == s.effects[k].refreshes;
  }

  lemma {:induction false} ReplyKeeps(s: State, k: nat, payable: Option<int>)
    requires Invariant(s) && k < |s.effects| && s.effects[k].phase.Asked?
    ensures Invariant(Replied(s, k, payable))
  {
    hide QuoteKey;
    assert EffectsSound(Replied(s, k, payable)) by { ReplyKeepsStamps(s, k, payable); }
    hide EffectsSound;
  }

  lemma {:induction false} ReplyKeepsStamps(s: State, k: nat, payable: Option<int>)
    requires EffectsSound(s) && k < |s.effects| && s.effects[k].phase.Asked?
    ensures EffectsSound(Replied(s, k, payable))
  {
    hide Key, QuoteKey;
    var t := Replied(s, k, payable);
    assert forall j :: 0 <= j < |s.effects| ==>
        t.effects[j].generation == s.effects[j].generation && t.effects[j].refreshes == s.effects[j].refreshes;
  }

  lemma {:induction false} StepKeeps(s: State, e: Event)
    requires Invariant(s)
    ensures Invariant(Apply(s, e))
  {
    hide QuoteKey, Rerendered, EffectsRun, Replied;
    match e
    case Rerender(r) => RerenderKeeps(s, r);
    case Effects => EffectsKeep(s);
    case Reply(k, payable) => if k < |s.effects| && s.effects[k].phase.Asked? { ReplyKeeps(s, k, payable); }
    case _ =>
  }

  /** What a run of the effects leaves: one that may still reply, started only for a request that
      can be priced and is not, and no price of a request that differs in more than the tip. */
  predicate EffectsSettled(s: State, t: State)
    requires s.renders != []
  {
    var r := LatestRender(s);
    && OnlyLastRuns(t.effects)
    && |s.effects| <= |t.effects| <= |s.effects| + 1
    && (|t.effects| > |s.effects| ==>
          && r.ready && r.loaded && r.input.items != []
          && t.effects[|s.effects|].render == r && t.effects[|s.effects|].generation == t.quoteGeneration > s.quoteGeneration
          && t.failure.None? && (t.priced.Some? ==> t.priced.value.displayKey == DisplayKey(r)))
  }

  lemma {:induction false} EffectsRunSettles(s: State)
    requires Invariant(s)
    ensures EffectsSettled(s, EffectsRun(s))
  {
    EffectsKeep(s);
    hide QuoteKey, Key, DisplayKey, Filed, AuthoritySound, ShownSound;
  }

  lemma {:induction false} RequestsStarted(s: State)
    requires Invariant(s)
    ensures forall k :: 0 <= k < |s.effects| ==> s.effects[k].generation <= s.quoteGeneration
    ensures forall k :: 0 <= k < |s.validations| ==> s.validations[k].generation <= s.quoteGeneration
  {
  }

  lemma {:induction false} RunKeeps(first: Render, events: seq<Event>)
    ensures Invariant(Run(first, events))
  {
    if events == [] {
      hide QuoteKey;
    } else {
      hide Invariant, Apply;
      RunKeeps(first, events[..|events| - 1]);
      StepKeeps(Run(first, events[..|events| - 1]), events[|events| - 1]);
    }
  }

  // ----- what the customer is shown

  lemma {:induction false} ShownAnswers(s: State)
    requires Invariant(s)
    ensures s.shown.Some? ==>
              s.shown.value.quote.input == LatestRender(s).input && s.shown.value.quote.customer == LatestRender(s).customer
    ensures s.displayed.Some? ==>
              && s.displayed.value.quote.input == LatestRender(s).input.(tip := s.displayed.value.quote.input.tip)
              && s.displayed.value.quote.customer == LatestRender(s).customer
  {
    hide QuoteKey;
    var r := LatestRender(s);
    if s.shown.Some? {
      var q := s.shown.value.quote;
      KeyExact(q.input, q.customer, r.input, r.customer);
    }
    if s.displayed.Some? {
      var q := s.displayed.value.quote;
      KeyExact(q.input.(tip := NoTip), q.customer, r.input.(tip := NoTip), r.customer);
      assert q.input == q.input.(tip := NoTip).(tip := q.input.tip);
    }
  }

  lemma {:induction false} RerenderAnswers(s: State, r: Render)
    requires Invariant(s)
    ensures var t := Rerendered(s, r);
            && t.renders != [] && Invariant(t)
            && (t.shown.Some? ==> t.shown.value.quote.input == r.input && t.shown.value.quote.customer == r.customer)
            && (t.displayed.Some? ==>
                  && t.displayed.value.quote.input == r.input.(tip := t.displayed.value.quote.input.tip)
                  && t.displayed.value.quote.customer == r.customer)
  {
    hide Invariant, Key, DisplayKey;
    RerenderKeeps(s, r);
    ShownAnswers(Rerendered(s, r));
    assert LatestRender(Rerendered(s, r)) == r;
  }

  /** The quote a render calls current answers that render's own request, in every field and
      for its customer. */
  lemma {:induction false} CurrentQuoteAnswersInput(first: Render, events: seq<Event>)
    ensures var s := Run(first, events);
            s.shown.Some? ==>
              s.shown.value.quote.input == LatestRender(s).input && s.shown.value.quote.customer == LatestRender(s).customer
  {
    RunKeeps(first, events);
    ShownAnswers(Run(first, events));
  }

  /** Going away from a key and coming back never revives its quote: a current quote was accepted
      since the key was last arrived at, unless a coupon was approved for this very key and the
      change to it was the next one. Nor does a quote asked for before a refresh survive it. */
  lemma {:induction false} OldQuoteNeverRevived(first: Render, events: seq<Event>)
    ensures var s := Run(first, events);
            s.shown.Some? ==> s.shown.value.visit == s.visit || (s.shown.value.byCoupon && s.shown.value.visit + 1 == s.visit)
    ensures var s := Run(first, events);
            s.priced.Some? && !s.priced.value.byCoupon ==> s.priced.value.refreshes == s.refreshes
  {
    RunKeeps(first, events);
    hide QuoteKey, Run;
  }

  /** A quote that is only displayed differs from the present request in the tip alone. */
  lemma {:induction false} DisplayedQuoteDiffersInTip(first: Render, events: seq<Event>)
    ensures var s := Run(first, events);
            s.displayed.Some? ==>
              s.displayed.value.quote.input == LatestRender(s).input.(tip := s.displayed.value.quote.input.tip)
              && s.displayed.value.quote.customer == LatestRender(s).customer
  {
    RunKeeps(first, events);
    ShownAnswers(Run(first, events));
  }

  /** A reply to an effect that was cancelled, or overtaken by a newer one, a coupon or a
      refresh, leaves authority, prices and error as they are. */
  lemma {:induction false} OvertakenReplyIgnored(s: State, k: nat, payable: Option<int>)
    requires Invariant(s) && k < |s.effects|
    requires s.effects[k].cancelled || s.effects[k].generation < s.quoteGeneration || Key(s.effects[k].render) != Key(LatestRender(s))
    ensures var t := Apply(s, Reply(k, payable));
            t.authoritativeKey == s.authoritativeKey && t.priced == s.priced && t.failure == s.failure
  {
    hide QuoteKey;
  }

  /** A coupon is offered for approval only with a quote for the latest render's request, the
      selection apart. */
  lemma {:induction false} AnsweredForLatest(s: State, k: nat, payable: Option<int>)
    requires Invariant(s) && k < |s.validations| && s.validations[k].phase.Validating?
    ensures var t := Apply(s, SelectionReply(k, payable));
            var v := t.validations[k];
            v.phase.Answered? ==>
              && v.phase.quote.input == LatestRender(s).input.(selection := v.selection)
              && v.phase.quote.customer == LatestRender(s).customer
  {
    hide QuoteKey;
    var v, r := s.validations[k].render, LatestRender(s);
    KeyExact(v.input, v.customer, r.input, r.customer);
  }

  /** An approved coupon's quote is current as soon as its selection is rendered; any other
      change of the request takes its authority away. */
  lemma {:induction false} CouponHoldsForItsOwnKey(s: State, k: nat, r: Render)
    requires s.renders != [] && k < |s.validations| && s.validations[k].phase.Answered?
    ensures var q := s.validations[k].phase.quote;
            var accepted := Apply(s, AcceptSelection(k));
            var t := Apply(accepted, Rerender(r));
            if r.input == q.input && r.customer == q.customer
            then r.ready && r.loaded ==> t.shown.Some? && t.shown.value.quote == q
            else t.shown.None? && (Key(r) != s.latest ==> t.authoritativeKey.None?)
  {
    hide QuoteKey;
    var q := s.validations[k].phase.quote;
    KeyExact(q.input, q.customer, r.input, r.customer);
  }

  /** A render that could show a price shows `q` if it makes the request `q` answers, and none otherwise. */
  ghost predicate ShownExactlyFor(s: State, q: Quote) {
    forall r: Render :: r.ready && r.loaded ==>
      var shown := Rerendered(s, r).shown;
      if r.input == q.input && r.customer == q.customer then shown.Some? && shown.value.quote == q else shown.None?
  }

  lemma {:induction false} CouponShownExactlyFor(s: State, k: nat)
    requires s.renders != [] && k < |s.validations| && s.validations[k].phase.Answered?
    ensures ShownExactlyFor(Apply(s, AcceptSelection(k)), s.validations[k].phase.quote)
  {
    hide Rerendered;
    var t := Apply(s, AcceptSelection(k));
    var q := s.validations[k].phase.quote;
    forall r: Render | r.ready && r.loaded
      ensures var shown := Rerendered(t, r).shown;
              if r.input == q.input && r.customer == q.customer then shown.Some? && shown.value.quote == q else shown.None?
    {
      CouponHoldsForItsOwnKey(s, k, r);
      ApplyKeepsRenders(s, AcceptSelection(k));
      assert Apply(t, Rerender(r)) == Rerendered(t, r);
    }
  }
}
