/** Whose answer the amount in the cart is (apps/application/src/hooks/use-cart-pricing.ts). */
module CartAmounts {
  import opened Strings
  import opened CartQuotes

  /** The event is an answer of the server with this amount, to the pricing effect or the coupon that
      asked for this input and customer. */
  predicate Answers(s: State, e: Event, input: RawInput, customer: string, amount: int) {
    match e
    case Reply(k, payable) =>
      && payable == Some(amount) && k < |s.effects|
      && s.effects[k].render.input == input && s.effects[k].render.customer == customer
    case SelectionReply(k, payable) =>
      && payable == Some(amount) && k < |s.validations|
      && s.validations[k].render.input.(selection := s.validations[k].selection) == input && s.validations[k].render.customer == customer
    case _ => false
  }

  /** Some answer among the events gave the quote. */
  ghost predicate Known(events: seq<Event>, s: State, q: Quote) {
    exists j :: 0 <= j < |events| && Answers(s, events[j], q.input, q.customer, q.payable)
  }

  ghost predicate PricedKnown(events: seq<Event>, s: State, p: Option<Priced>) {
    p.Some? ==> Known(events, s, p.value.quote)
  }

  ghost predicate CouponsKnown(events: seq<Event>, s: State) {
    forall k :: 0 <= k < |s.validations| && s.validations[k].phase.Answered? ==> Known(events, s, s.validations[k].phase.quote)
  }

  ghost predicate AmountsKnown(events: seq<Event>, s: State) {
    PricedKnown(events, s, s.priced) && PricedKnown(events, s, s.shown) && PricedKnown(events, s, s.displayed) && CouponsKnown(events, s)
  }

  /** What answers are told by stays. */
  predicate Grows(s: State, t: State) {
    && |s.effects| <= |t.effects| && |s.validations| <= |t.validations|
    && (forall k :: 0 <= k < |s.effects| ==> t.effects[k].render == s.effects[k].render)
    && (forall k :: 0 <= k < |s.validations| ==>
          t.validations[k].render == s.validations[k].render && t.validations[k].selection == s.validations[k].selection)
  }

  lemma {:induction false} StepGrows(s: State, e: Event)
    requires s.renders != []
    ensures Grows(s, Apply(s, e))
  {
    hide Key, DisplayKey, QuoteKey;
  }

  lemma {:induction false} StaysKnown(events: seq<Event>, e: Event, s: State, t: State, q: Quote)
    requires Known(events, s, q) && Grows(s, t)
    ensures Known(events + [e], t, q)
  {
    var j :| 0 <= j < |events| && Answers(s, events[j], q.input, q.customer, q.payable);
    assert (events + [e])[j] == events[j];
    assert Answers(t, (events + [e])[j], q.input, q.customer, q.payable);
  }

  /** A quote after the event was there before, was a coupon's, or is the event's answer. */
  predicate Given(s: State, e: Event, t: State, q: Quote) {
    || (s.priced.Some? && q == s.priced.value.quote)
    || (s.shown.Some? && q == s.shown.value.quote)
    || (s.displayed.Some? && q == s.displayed.value.quote)
    || (exists k :: 0 <= k < |s.validations| && s.validations[k].phase.Answered? && q == s.validations[k].phase.quote)
    || Answers(t, e, q.input, q.customer, q.payable)
  }

  lemma {:induction false} GivenIsKnown(events: seq<Event>, e: Event, s: State, t: State, q: Quote)
    requires AmountsKnown(events, s) && Grows(s, t) && Given(s, e, t, q)
    ensures Known(events + [e], t, q)
  {
    if Answers(t, e, q.input, q.customer, q.payable) {
      hide Answers;
      assert (events + [e])[|events|] == e;
      assert Answers(t, (events + [e])[|events|], q.input, q.customer, q.payable);
    } else {
      hide Known, Grows;
      StaysKnown(events, e, s, t, q);
    }
  }

  ghost predicate GivesPriced(s: State, e: Event, t: State) {
    t.priced.Some? ==> Given(s, e, t, t.priced.value.quote)
  }

  ghost predicate GivesShown(s: State, e: Event, t: State) {
    && (t.shown.Some? ==> Given(s, e, t, t.shown.value.quote))
    && (t.displayed.Some? ==> Given(s, e, t, t.displayed.value.quote))
  }

  ghost predicate GivesCoupons(s: State, e: Event, t: State) {
    forall k :: 0 <= k < |t.validations| && t.validations[k].phase.Answered? ==> Given(s, e, t, t.validations[k].phase.quote)
  }

  lemma {:induction false} StepGivesPriced(s: State, e: Event)
    requires s.renders != []
    ensures GivesPriced(s, e, Apply(s, e))
  {
    hide Key, DisplayKey, QuoteKey;
  }

  lemma {:induction false} StepGivesShown(s: State, e: Event)
    requires s.renders != []
    ensures GivesShown(s, e, Apply(s, e))
  {
    hide Key, DisplayKey, QuoteKey;
  }

  lemma {:induction false} StepGivesCoupons(s: State, e: Event)
    requires s.renders != []
    ensures GivesCoupons(s, e, Apply(s, e))
  {
    hide Key, DisplayKey, QuoteKey, Rerendered, EffectsRun, Replied;
    match e
    case Rerender(r) => SameCoupons(s, e);
    case Effects => SameCoupons(s, e);
    case Reply(_, _) => SameCoupons(s, e);
    case _ =>
  }

  lemma {:induction false} SameCoupons(s: State, e: Event)
    requires s.renders != [] && (e.Rerender? || e.Effects? || e.Reply?)
    ensures GivesCoupons(s, e, Apply(s, e))
  {
    hide Key, DisplayKey, QuoteKey;
  }

  lemma {:induction false} StepAmountsKnown(events: seq<Event>, e: Event, s: State)
    requires s.renders != [] && AmountsKnown(events, s)
    ensures AmountsKnown(events + [e], Apply(s, e))
  {
    var t := Apply(s, e);
    StepGrows(s, e);
    StepGivesPriced(s, e);
    StepGivesShown(s, e);
    StepGivesCoupons(s, e);
    hide Apply, Known, Given, Grows;
    forall q | Given(s, e, t, q) ensures Known(events + [e], t, q) {
      GivenIsKnown(events, e, s, t, q);
    }
  }

  lemma {:induction false} RunAmountsKnown(first: Render, events: seq<Event>)
    ensures AmountsKnown(events, Run(first, events))
  {
    if events != [] {
      hide AmountsKnown, Apply;
      var n := |events| - 1;
      RunAmountsKnown(first, events[..n]);
      StepAmountsKnown(events[..n], events[n], Run(first, events[..n]));
      assert events[..n] + [events[n]] == events;
    }
  }

  /** The amount shown as current is one the server answered for exactly what the latest render asks:
      to a pricing effect, or to a coupon's request with that coupon. */
  lemma {:induction false} ShownAmountWasAnswered(first: Render, events: seq<Event>)
    ensures var s := Run(first, events);
            s.shown.Some? ==>
              exists j :: 0 <= j < |events|
                && Answers(s, events[j], LatestRender(s).input, LatestRender(s).customer, s.shown.value.quote.payable)
  {
    RunAmountsKnown(first, events);
    CurrentQuoteAnswersInput(first, events);
    hide Run, Answers;
  }

  /** An amount only displayed was answered for what the latest render asks, but for the tip. */
  lemma {:induction false} DisplayedAmountWasAnswered(first: Render, events: seq<Event>)
    ensures var s := Run(first, events);
            s.displayed.Some? ==>
              exists j :: 0 <= j < |events|
                && Answers(s, events[j], LatestRender(s).input.(tip := s.displayed.value.quote.input.tip), LatestRender(s).customer,
                           s.displayed.value.quote.payable)
  {
    RunAmountsKnown(first, events);
    DisplayedQuoteDiffersInTip(first, events);
    hide Run, Answers;
  }

  /** An amount that answers an effect still in force, for what the latest render asks, is shown from the
      next render of that request on; a failure leaves no price and an error for this request. */
  lemma {:induction false} ReplyInForceIsShown(s: State, k: nat, payable: Option<int>, r: Render)
    requires Invariant(s) && s.mounted && k < |s.effects| && s.effects[k].phase == Asked(s.quoteGeneration)
    requires !s.effects[k].cancelled && s.effects[k].generation == s.quoteGeneration
    requires s.effects[k].render.input == LatestRender(s).input == r.input
    requires s.effects[k].render.customer == LatestRender(s).customer == r.customer && r.ready && r.loaded
    ensures var t := Apply(s, Reply(k, payable));
            t.renders != [] &&
            var u := Apply(t, Rerender(r));
            if payable.Some? then
              && u.shown.Some? && u.shown == u.displayed && t.failure.None?
              && u.shown.value.quote.payable == payable.value
              && u.shown.value.quote.input == r.input && u.shown.value.quote.customer == r.customer
            else
              t.priced.None? && u.shown.None? && u.displayed.None? && t.failure == Some(QuoteKey(r.input, r.customer))
  {
    hide QuoteKey;
  }

  /** So is the amount the server answers for a coupon, as long as nothing changed in between. */
  lemma {:induction false} CouponAmountIsAnswer(s: State, k: nat, amount: int)
    requires Invariant(s) && s.mounted && k < |s.validations| && s.validations[k].phase.Validating?
    requires s.validations[k].generation == s.quoteGeneration
    requires s.validations[k].render.input == LatestRender(s).input && s.validations[k].render.customer == LatestRender(s).customer
    ensures var t := Apply(s, SelectionReply(k, Some(amount)));
            && t.validations[k].phase.Answered?
            && t.validations[k].phase.quote.payable == amount
            && t.validations[k].phase.quote.input == LatestRender(s).input.(selection := s.validations[k].selection)
  {
    hide QuoteKey;
  }

  /** After a render the server is asked exactly if the render can be priced and has something to price,
      the request or its readiness changed since the effects last ran or a refresh was called for, and
      the quote that render saw is not already the accepted one of this very request. */
  lemma {:induction false} EffectStartsExactly(s: State)
    requires Invariant(s)
    ensures var r := LatestRender(s);
            var key := QuoteKey(r.input, r.customer);
            var t := EffectsRun(s);
            && (|t.effects| == |s.effects| + 1 <==>
                && r.ready && r.loaded && r.input.items != []
                && s.dependencies != Some((key, r.ready, s.retry))
                && !(s.renderedPriced.Some? && s.renderedPriced.value.key == key && s.authoritativeKey == Some(key)))
            && (|t.effects| == |s.effects| + 1 ==>
                  t.effects[|s.effects|] == Effect(r, s.quoteGeneration + 1, false, Timer, s.refreshes) && t.quoteGeneration == s.quoteGeneration + 1)
  {
    hide QuoteKey;
  }

  /** While only the tip of the request has changed since the last accepted quote, that quote stays on
      display, though it is not current; once the request failed it does not. */
  lemma {:induction false} TipChangeStaysOnDisplay(s: State, r: Render)
    requires Invariant(s) && s.priced.Some? && r.ready && r.loaded
    ensures var q := s.priced.value.quote;
            var t := Apply(s, Rerender(r));
            && (r.input != q.input || r.customer != q.customer ==> t.shown.None?)
            && (t.shown.None? ==>
                  t.displayed == if r.input.(tip := NoTip) == q.input.(tip := NoTip) && r.customer == q.customer
                                    && s.failure != Some(QuoteKey(r.input, r.customer))
                                 then s.priced else None)
  {
    var q := s.priced.value.quote;
    KeyExact(q.input, q.customer, r.input, r.customer);
    KeyExact(q.input.(tip := NoTip), q.customer, r.input.(tip := NoTip), r.customer);
    hide QuoteKey;
  }

  /** The server is asked once the timer of an effect fires that was not cancelled before, and for a
      coupon at once. */
  lemma {:induction false} TimerAsks(s: State, k: nat, closure: nat, selection: Selection)
    requires s.renders != []
    ensures k < |s.effects| && s.effects[k].phase.Timer? ==>
              var t := Apply(s, TimerFires(k));
              t.effects[k].phase == if s.effects[k].cancelled then Timer else Asked(s.quoteGeneration)
    ensures closure < |s.renders| ==>
              var t := Apply(s, RequestSelection(closure, selection));
              |t.validations| == |s.validations| + 1
              && t.validations[|s.validations|] == Validation(s.renders[closure], selection, s.quoteGeneration, Validating)
  {
    hide QuoteKey;
  }
}
