/** The pricing hook as it runs: its refs and state, and one method for each stretch of code
    between two awaits or renders (apps/application/src/hooks/use-cart-pricing.ts).
    Every method is proved to do one event of the state machine in module CartQuotes, and so keeps
    what every run of that machine keeps: `Rerendered`, `EffectsRun` and `Replied` are its steps
    for the events of those names. */
module CartPricing {
  import opened Strings
  import Q = CartQuotes

  class Hook {
    var renders: seq<Q.Render>
    var latest: string
    var authoritativeKey: Option<string>
    var quoteGeneration: nat
    var mounted: bool
    var priced: Option<Q.Priced>
    var renderedPriced: Option<Q.Priced>
    var failure: Option<string>
    var retry: nat
    var dependencies: Option<(string, bool, nat)>
    var effects: seq<Q.Effect>
    var validations: seq<Q.Validation>
    var shown: Option<Q.Priced>
    var displayed: Option<Q.Priced>
    var visit: nat
    var refreshes: nat

    constructor (first: Q.Render)
      ensures State() == Q.Initial(first) && Ready()
    {
      renders, latest, authoritativeKey, quoteGeneration := [first], Q.Key(first), None, 0;
      mounted, priced, renderedPriced, failure, retry := true, None, None, None, 0;
      dependencies, effects, validations := None, [], [];
      shown, displayed, visit, refreshes := None, None, 0, 0;
      new;
      Q.RunKeeps(first, []);
    }

    function State(): Q.State
      reads this
    {
      Q.State(renders, latest, authoritativeKey, quoteGeneration, mounted, priced, renderedPriced, failure, retry,
              dependencies, effects, validations, shown, displayed, visit, refreshes)
    }

    /** What every reachable state satisfies. */
    ghost predicate Ready()
      reads this
    {
      renders != [] && Q.Invariant(State())
    }

    method AssignRefs(r: Q.Render)
      modifies this`renders, this`latest, this`authoritativeKey, this`visit
      ensures State() == Q.RefsAssigned(old(State()), r)
    {
      var key := Q.Key(r);
      if latest != key && authoritativeKey != Some(key) {
        authoritativeKey := None;
      }
      if latest != key {
        visit := visit + 1;
      }
      latest, renders := key, renders + [r];
    }

    /** The quote shown as current answers this very request; one only displayed, this request
        with another tip. */
    method Render(r: Q.Render)
      requires Ready()
      modifies this
      ensures State() == Q.Rerendered(old(State()), r) && Ready()
      ensures shown.Some? ==> shown.value.quote.input == r.input && shown.value.quote.customer == r.customer
      ensures displayed.Some? ==>
                && displayed.value.quote.input == r.input.(tip := displayed.value.quote.input.tip)
                && displayed.value.quote.customer == r.customer
    {
      hide Q.Invariant, Q.QuoteKey, Q.Key, Q.DisplayKey, Q.RefsAssigned;
      Q.RerenderAnswers(State(), r);
      AssignRefs(r);
      var key := Q.Key(r);
      var usable := r.ready && r.loaded && priced.Some?;
      var current := if usable && authoritativeKey == Some(key) && priced.value.key == key then priced else None;
      var error := failure == Some(key);
      var display :=
        if current.None? && usable && !error && priced.value.displayKey == Q.DisplayKey(r) then priced else current;
      renderedPriced, shown, displayed := priced, current, display;
    }

    method CleanUp(r: Q.Render)
      modifies this`effects, this`priced, this`dependencies
      ensures State() == Q.CleanedUp(old(State()), r)
    {
      if effects != [] {
        effects := effects[|effects| - 1 := effects[|effects| - 1].(cancelled := true)];
      }
      if (dependencies.None? || dependencies.value.1 != r.ready) && !r.ready {
        priced := None;
      }
      dependencies := Some((Q.Key(r), r.ready, retry));
    }

    method StartEffect(r: Q.Render)
      modifies this`priced, this`failure, this`quoteGeneration, this`effects
      ensures State() == Q.Started(old(State()), r)
    {
      if priced.Some? && priced.value.displayKey != Q.DisplayKey(r) {
        priced := None;
      }
      failure := None;
      quoteGeneration := quoteGeneration + 1;
      effects := effects + [Q.Effect(r, quoteGeneration, false, Q.Timer, refreshes)];
    }

    method RunEffects()
      requires Ready()
      modifies this
      ensures State() == Q.EffectsRun(old(State())) && Ready()
      ensures Q.EffectsSettled(old(State()), State())
    {
      hide Q.EffectsSettled, Q.Invariant, Q.QuoteKey, Q.Key, Q.CleanedUp, Q.Started;
      Q.EffectsKeep(State());
      Q.EffectsRunSettles(State());
      var r := renders[|renders| - 1];
      var key := Q.Key(r);
      if dependencies == Some((key, r.ready, retry)) {
        return;
      }
      var settled := renderedPriced.Some? && renderedPriced.value.key == key && authoritativeKey == Some(key);
      CleanUp(r);
      if r.ready && r.loaded && r.input.items != [] && !settled {
        StartEffect(r);
      }
    }

    method TimerFired(k: nat)
      requires Ready()
      requires k < |effects| && effects[k].phase.Timer? && !effects[k].cancelled
      modifies this
      ensures State() == Q.Apply(old(State()), Q.TimerFires(k)) && Ready()
    {
      hide Q.Invariant, Q.QuoteKey, Q.Key, Q.DisplayKey, Q.Rerendered, Q.EffectsRun, Q.Replied;
      Q.StepKeeps(State(), Q.TimerFires(k));
      effects := effects[k := effects[k].(phase := Q.Asked(quoteGeneration))];
    }

    method EffectReplied(k: nat, payable: Option<int>)
      requires Ready()
      requires k < |effects| && effects[k].phase.Asked?
      modifies this
      ensures State() == Q.Replied(old(State()), k, payable) && Ready()
      ensures old(effects[k].cancelled || effects[k].generation < quoteGeneration) ==>
                authoritativeKey == old(authoritativeKey) && priced == old(priced) && failure == old(failure)
      ensures old(mounted && !effects[k].cancelled && latest == Q.Key(effects[k].render))
              && old(effects[k].generation == effects[k].phase.generation == quoteGeneration) && payable.Some? ==>
                && priced.Some? && priced.value.quote.payable == payable.value && failure.None?
                && priced.value.quote.input == old(effects[k].render.input) && priced.value.quote.customer == old(effects[k].render.customer)
    {
      hide Q.Invariant, Q.QuoteKey, Q.Key, Q.DisplayKey;
      Q.ReplyKeeps(State(), k, payable);
      var e := effects[k];
      var key := Q.Key(e.render);
      var quoted := payable.Some? && mounted && latest == key && quoteGeneration == e.phase.generation;
      effects := effects[k := e.(phase := Q.Over)];
      if e.cancelled || latest != key || e.generation != quoteGeneration {
        return;
      }
      if quoted {
        authoritativeKey := Some(key);
        priced := Some(Q.PricedFor(Q.Quote(e.render.input, e.render.customer, payable.value), false, State(), e.refreshes));
        failure := None;
      } else {
        priced := None;
        failure := Some(key);
      }
    }

    method RequestSelection(closure: nat, selection: Q.Selection) returns (validation: nat)
      requires Ready()
      requires closure < |renders|
      modifies this
      ensures State() == Q.Apply(old(State()), Q.RequestSelection(closure, selection)) && Ready()
      ensures validation == |old(validations)|
    {
      hide Q.Invariant, Q.QuoteKey, Q.Key, Q.DisplayKey, Q.Rerendered, Q.EffectsRun, Q.Replied;
      Q.StepKeeps(State(), Q.RequestSelection(closure, selection));
      validation := |validations|;
      validations := validations + [Q.Validation(renders[closure], selection, quoteGeneration, Q.Validating)];
    }

    method SelectionReplied(k: nat, payable: Option<int>)
      requires Ready()
      requires k < |validations| && validations[k].phase.Validating?
      modifies this
      ensures State() == Q.Apply(old(State()), Q.SelectionReply(k, payable)) && Ready()
      ensures validations[k].phase.Answered? ==>
                && validations[k].phase.quote.input == Q.LatestRender(State()).input.(selection := validations[k].selection)
                && validations[k].phase.quote.customer == Q.LatestRender(State()).customer
                && payable == Some(validations[k].phase.quote.payable)
    {
      hide Q.Invariant, Q.QuoteKey, Q.Key, Q.DisplayKey, Q.Rerendered, Q.EffectsRun, Q.Replied;
      Q.StepKeeps(State(), Q.SelectionReply(k, payable));
      Q.AnsweredForLatest(State(), k, payable);
      var v := validations[k];
      var phase := Q.Closed;
      if payable.Some? && mounted && latest == Q.Key(v.render) && v.generation == quoteGeneration {
        phase := Q.Answered(Q.Quote(v.render.input.(selection := v.selection), v.render.customer, payable.value));
      }
      validations := validations[k := v.(phase := phase)];
    }

    /** The next render shows the coupon's quote exactly if it makes the request that was approved. */
    method AcceptSelection(k: nat)
      requires Ready()
      requires k < |validations| && validations[k].phase.Answered?
      modifies this
      ensures State() == Q.Apply(old(State()), Q.AcceptSelection(k)) && Ready()
      ensures Q.ShownExactlyFor(State(), old(validations[k].phase.quote))
    {
      hide Q.Invariant, Q.QuoteKey, Q.Key, Q.DisplayKey, Q.Rerendered, Q.EffectsRun, Q.Replied, Q.ShownExactlyFor;
      Q.CouponShownExactlyFor(State(), k);
      Q.StepKeeps(State(), Q.AcceptSelection(k));
      var quote := validations[k].phase.quote;
      quoteGeneration := quoteGeneration + 1;
      authoritativeKey := Some(Q.QuoteKey(quote.input, quote.customer));
      priced := Some(Q.PricedFor(quote, true, State(), refreshes));
      failure := None;
      validations := validations[k := validations[k].(phase := Q.Closed)];
    }

    /** Nothing is shown as priced, and no request made so far will be heeded. */
    method Refresh()
      requires Ready()
      modifies this
      ensures State() == Q.Apply(old(State()), Q.Refresh) && Ready()
      ensures priced.None?
      ensures forall k :: 0 <= k < |effects| ==> effects[k].generation < quoteGeneration
      ensures forall k :: 0 <= k < |validations| ==> validations[k].generation < quoteGeneration
    {
      hide Q.Invariant, Q.QuoteKey, Q.Key, Q.DisplayKey, Q.Rerendered, Q.EffectsRun, Q.Replied;
      Q.StepKeeps(State(), Q.Refresh);
      Q.RequestsStarted(State());
      quoteGeneration, priced, failure := quoteGeneration + 1, None, None;
      retry, refreshes := retry + 1, refreshes + 1;
    }

    method Unmount()
      requires Ready()
      modifies this
      ensures State() == Q.Apply(old(State()), Q.Unmount) && Ready()
    {
      hide Q.Invariant, Q.QuoteKey, Q.Key, Q.DisplayKey, Q.Rerendered, Q.EffectsRun, Q.Replied;
      Q.StepKeeps(State(), Q.Unmount);
      if effects != [] {
        effects := effects[|effects| - 1 := effects[|effects| - 1].(cancelled := true)];
      }
      mounted := false;
    }
  }
}
