/** The checkout screen as it runs: its refs and state, and one method for each stretch of code
    between two awaits (apps/application/app/checkout.tsx). Every method is proved to do one
    step of the state machine in module Checkout, and so keeps what every run of it keeps. */
module CheckoutScreen {
  import opened Strings
  import D = Decimals
  import J = JsonText
  import C = Checkout
  import T = CheckoutTheorems
  import A = CheckoutAmounts

  class Screen {
    var views: seq<C.View>
    var latest: string
    var quote: Option<C.Quote>
    var pricedKey: Option<string>
    var submitting: bool
    var pendingSubmit: bool
    var pendingReview: Option<C.Review>
    var attemptRef: Option<(string, nat)>
    var nextKey: nat
    var attempts: seq<C.Attempt>
    var posts: seq<C.Post>

    constructor ()
      ensures State() == C.INITIAL && Ready()
    {
      views, latest, quote, pricedKey := [], "", None, None;
      submitting, pendingSubmit, pendingReview, attemptRef, nextKey := false, false, None, None, 0;
      attempts, posts := [], [];
    }

    function State(): C.State
      reads this
    {
      C.State(views, latest, quote, pricedKey, submitting, pendingSubmit, pendingReview, attemptRef, nextKey, attempts, posts)
    }

    /** What every reachable state satisfies. */
    ghost predicate Ready()
      reads this
    {
      T.Invariant(State())
    }

    /** A quote the view shows as current is for this render's own request. */
    method Render(r: C.Render)
      requires Ready()
      modifies this
      ensures State() == C.Apply(old(State()), C.Rerender(r)) && Ready()
      ensures views == old(views) + [views[|old(views)|]] && views[|old(views)|].render == r
      ensures T.ViewSound(views[|old(views)|])
      ensures A.ShowsExactly(views[|old(views)|].current, old(quote), r)
    {
      A.RerenderExact(State(), r);
      T.StepKeeps(State(), C.Rerender(r));
      T.ShownAnswers(C.Apply(State(), C.Rerender(r)));
      hide T.Invariant, T.ViewSound, C.KeyText, C.RequestOf, A.ShowsExactly;
      var current := None;
      if pricedKey == Some(C.Key(r)) && r.deliveryReady && !r.loading && !r.error && !(r.form.delivery && r.estimate) && r.hydrated {
        current := quote;
      }
      latest := C.Key(r);
      views := views + [C.View(r, current)];
    }

    /** The pricing effect of view k gets its answer: an answer to what the latest view asks becomes the
        quote at hand, any other is dropped, and a failure leaves none. */
    method Priced(k: nat, amounts: Option<C.Amounts>)
      requires Ready()
      modifies this
      ensures State() == C.Apply(old(State()), C.PricingReply(k, amounts)) && Ready()
      ensures k < |views| ==> A.PricingAnswered(old(State()), State(), k, amounts)
    {
      if k < |views| {
        A.PricingReplyExact(State(), k, amounts);
      }
      hide T.Invariant, A.PricingAnswered, C.KeyText, C.RequestOf, C.CurrentQuote, C.PlaceOrder, C.AfterSignIn, C.FreshQuoted, C.Sent, C.Ended;
      T.StepKeeps(State(), C.PricingReply(k, amounts));
      if amounts.None? {
        quote := None;
      } else if k < |views| && latest == C.Key(views[k].render) {
        quote := Some(C.QuoteFor(C.RequestOf(views[k].render), amounts.value));
        pricedKey := Some(C.Key(views[k].render));
      }
    }

    /** The payload, assembled field by field. */
    static method BuildPayload(f: C.RawForm, tip: int) returns (payload: seq<J.Field>)
      ensures payload == C.PayloadFields(f, tip, true)
    {
      payload := BuildHead(f, tip);
      ghost var before := payload;
      if f.delivery {
        payload := payload + [J.Field(C.TOKEN, J.Str(f.deliveryToken))];
      }
      assert payload == before + C.Optional(f.delivery, C.TOKEN, J.Str(f.deliveryToken));
      payload := AddTail(f, payload);
    }

    static method BuildHead(f: C.RawForm, tip: int) returns (payload: seq<J.Field>)
      ensures payload == C.PayloadHead(f, tip)
    {
      payload := [J.Field("location_id", J.Str(f.locationId)),
                  J.Field("fulfillment_type", C.Fulfillment(f.delivery)),
                  J.Field("items", J.Arr(f.items))];
      ghost var before := payload;
      if f.scheduledFor.Some? && f.scheduledFor.value != "" {
        payload := payload + [J.Field("scheduled_for", J.Str(f.scheduledFor.value))];
      }
      assert payload == before + C.Optional(C.Scheduled(f) != "", "scheduled_for", J.Str(C.Scheduled(f)));
      before := payload;
      if tip > 0 {
        payload := payload + [J.Field("driver_tip_cents", J.Num(D.Decimal(tip)))];
      }
      assert payload == before + C.Optional(tip > 0, "driver_tip_cents", J.Num(D.Decimal(if tip > 0 then tip else 0)));
      before := payload;
      if f.delivery && f.contactless != "" {
        payload := payload + [J.Field("contactless_pref", J.Str(f.contactless))];
      }
      assert payload == before + C.Optional(f.delivery && f.contactless != "", "contactless_pref", J.Str(f.contactless));
      before := payload;
      if f.delivery {
        payload := payload + [J.Field("address_snapshot_json", C.AddressValue(f.address))];
      }
      assert payload == before + C.Optional(f.delivery, "address_snapshot_json", C.AddressValue(f.address));
    }

    static method AddTail(f: C.RawForm, head: seq<J.Field>) returns (payload: seq<J.Field>)
      ensures payload == head + C.PayloadTail(f)
    {
      payload := head + [J.Field("payment_method", J.Str("PAY_AT_STORE"))];
      if f.paymentMethod != "ONLINE_CARD" {
        payload := payload + [J.Field("collection_preference", J.Str(f.paymentMethod))];
      }
      if f.selection.promoCode.Some? && Trim(f.selection.promoCode.value) != "" {
        payload := payload + [J.Field("promo_code", J.Str(Trim(f.selection.promoCode.value)))];
      } else if f.selection.applyWingsReward {
        payload := payload + [J.Field("apply_wings_reward", J.Bool(true))];
      }
    }

    /** `delete logicalPayload.delivery_quote_token`. */
    static method DeleteToken(payload: seq<J.Field>) returns (logical: seq<J.Field>)
      ensures logical == C.Deleted(payload, C.TOKEN)
    {
      logical := [];
      for i := 0 to |payload|
        invariant logical == C.Deleted(payload[..i], C.TOKEN)
      {
        assert payload[..i + 1] == payload[..i] + [payload[i]];
        C.DeletedConcat(payload[..i], [payload[i]], C.TOKEN);
        assert [payload[i]][1..] == [];
        if payload[i].key != C.TOKEN {
          logical := logical + [payload[i]];
        }
      }
      assert payload[..|payload|] == payload;
    }

    /** `review` is what was agreed before signing in. A press while an attempt is under way does
        nothing, and an attempt starts only from a signed-in view whose quote shows no block. */
    method PlaceOrder(k: nat, confirmed: bool, review: Option<C.Review>)
      requires Ready()
      requires k < |views| && T.AsReviewed(views, k, review)
      modifies this
      ensures State() == C.PlaceOrder(old(State()), k, confirmed, review) && Ready()
      ensures old(submitting) ==> State() == old(State())
      ensures T.StartsOnlyConfirmed(old(State()), State(), k, confirmed)
    {
      hide T.Invariant, T.AsReviewed, T.StartsOnlyConfirmed, C.ViewBlock, C.StartAttempt, C.ReviewKey;
      T.PlaceKeeps(State(), k, confirmed, review);
      T.PlaceStarts(State(), k, confirmed, review);
      T.UnblockedShowsQuote(views[k]);
      var v := views[k];
      var r := v.render;
      if r.form.items == [] || submitting {
        return;
      }
      if !confirmed {
        pendingSubmit := false;
        return;
      }
      if C.ViewBlock(v).Some? {
        return;
      }
      if r.form.delivery && (!r.addressTyped || !r.deliveryReady || v.current.None?) {
        return;
      }
      if !r.signedIn {
        pendingReview := Some(C.Review(C.ReviewKey(r.form), v.current.value.payable, k));
        pendingSubmit := true;
        return;
      }
      StartAttempt(k, review);
    }

    method StartAttempt(k: nat, review: Option<C.Review>)
      requires k < |views| && views[k].current.Some?
      modifies this
      ensures State() == C.StartAttempt(old(State()), k, review)
    {
      hide C.Fingerprint;
      submitting := true;
      var fingerprint := SubmissionFingerprint(views[k].render.form, views[k].current.value.tip);
      if attemptRef.None? || attemptRef.value.0 != fingerprint {
        attemptRef := Some((fingerprint, nextKey));
        nextKey := nextKey + 1;
      }
      attempts := attempts + [C.Attempt(k, review, fingerprint, attemptRef.value.1, 0, C.Quoting)];
    }

    static method SubmissionFingerprint(form: C.RawForm, tip: int) returns (fingerprint: string)
      ensures fingerprint == C.Fingerprint(form, tip)
    {
      hide C.PayloadFields, C.Deleted, J.Stringify;
      var payload := BuildPayload(form, tip);
      var logical := DeleteToken(payload);
      C.FingerprintDropsToken(form, tip);
      fingerprint := J.Stringify(J.Obj(logical));
    }

    /** Submits once the customer has signed in, and only the order that was reviewed. */
    method SignedInEffect(confirmed: bool, authVisible: bool)
      requires Ready() && views != []
      modifies this
      ensures State() == C.AfterSignIn(old(State()), confirmed, authVisible) && Ready()
      ensures T.SubmitsOnlyReviewed(old(State()), State())
    {
      hide T.Invariant, T.AsReviewed, T.SubmitsOnlyReviewed, C.PlaceOrder, C.ViewBlock, C.ReviewKey;
      T.SignInKeeps(State(), confirmed, authVisible);
      T.PendingAsReviewed(State());
      T.AuthClosedKeeps(State(), false);
      T.SignInSubmits(State(), confirmed, authVisible);
      var v := views[|views| - 1];
      if !pendingSubmit || authVisible || !v.render.signedIn || v.current.None? || C.ViewBlock(v).Some? || !confirmed {
        return;
      }
      pendingSubmit := false;
      if pendingReview.None? || pendingReview.value.key != C.ReviewKey(v.render.form)
         || pendingReview.value.total != v.current.value.payable {
        return;
      }
      PlaceOrder(|views| - 1, confirmed, pendingReview);
    }

    method Finish(a: nat, succeeded: bool)
      requires a < |attempts|
      modifies this`submitting, this`attempts
      ensures State() == C.Ended(old(State()), a, succeeded)
    {
      attempts := attempts[a := attempts[a].(phase := C.Over(succeeded))];
      submitting := false;
    }

    method Send(a: nat, requote: C.Quote)
      requires a < |attempts| && attempts[a].view < |views| && views[attempts[a].view].current.Some?
      modifies this`attempts, this`posts
      ensures State() == C.Sent(old(State()), a, requote)
    {
      hide C.PayloadText;
      var x := attempts[a];
      var v := views[x.view];
      posts := posts + [C.Post(a, x.sent, C.PayloadText(v.render.form, v.current.value.tip), x.idempotencyKey, requote, |views| - 1)];
      attempts := attempts[a := x.(sent := x.sent + 1, phase := C.Posting)];
    }

    /** `placeOrder` after its fresh quote. A request leaves only if that quote is for the order shown,
        at the total and tip shown; otherwise the lock is free again. */
    method FreshQuoted(a: nat, amounts: Option<C.Amounts>)
      requires Ready()
      requires C.Running(State(), a, C.Quoting)
      modifies this
      ensures State() == C.FreshQuoted(old(State()), a, amounts) && Ready()
      ensures T.PostsOrStops(old(State()), State())
      ensures A.FreshAnswered(old(State()), State(), a, amounts)
    {
      hide T.Invariant, T.PostsOrStops, C.PricingBlock, C.PayloadText, C.KeyText, C.RequestOf, A.FreshAnswered;
      FreshQuotedDoes(State(), a, amounts);
      var v := views[attempts[a].view];
      var shown := v.current.value;
      if amounts.None? || latest != C.Key(v.render) {
        Finish(a, false);
        return;
      }
      var requote := C.QuoteFor(C.RequestOf(v.render), amounts.value);
      if C.PricingBlock(true, false, Some(requote), false, v.render.form).Some?
         || requote.payable != shown.payable || requote.tip != shown.tip {
        quote, pricedKey := Some(requote), Some(C.Key(v.render));
        Finish(a, false);
        return;
      }
      Send(a, requote);
    }

    /** `withSilentRefresh` repeats the request once. */
    method Repeat(a: nat)
      requires Ready()
      requires C.Running(State(), a, C.Posting) && attempts[a].sent == 1
      modifies this
      ensures State() == C.Apply(old(State()), C.Resend(a)) && Ready()
      ensures |posts| == |old(posts)| + 1 && old(posts) != []
      ensures var p, q := posts[|old(posts)| - 1], posts[|old(posts)|];
              p.attempt == q.attempt && p.payload == q.payload && p.idempotencyKey == q.idempotencyKey
    {
      T.PostingHasPosted(State(), a);
      T.StepKeeps(State(), C.Resend(a));
      hide T.Invariant, C.PayloadText;
      Send(a, posts[|posts| - 1].requote);
    }

    /** `placeOrder` after the checkout request: the lock is free, and an order that was created takes
        its idempotency key with it. */
    method PostReplied(a: nat, created: bool)
      requires Ready()
      requires C.Running(State(), a, C.Posting)
      modifies this
      ensures State() == C.Apply(old(State()), C.PostReply(a, created)) && Ready()
      ensures !submitting && (created ==> attemptRef.None?)
      ensures T.NoneActive(State())
    {
      hide T.Invariant, T.NoneActive;
      T.StepKeeps(State(), C.PostReply(a, created));
      T.UnlockedNoneActive(C.Apply(State(), C.PostReply(a, created)));
      if created {
        attemptRef := None;
      }
      Finish(a, created);
    }
  }

  /** What the stretch after the fresh quote keeps and does. */
  lemma {:induction false} FreshQuotedDoes(s: C.State, a: nat, amounts: Option<C.Amounts>)
    requires T.Invariant(s) && C.Running(s, a, C.Quoting)
    ensures var t := C.FreshQuoted(s, a, amounts);
            T.Invariant(t) && T.PostsOrStops(s, t) && A.FreshAnswered(s, t, a, amounts)
  {
    hide T.Invariant, T.PostsOrStops, A.FreshAnswered, C.FreshQuoted;
    T.FreshReplyKeeps(s, a, amounts);
    T.FreshReplyPosts(s, a, amounts);
    A.FreshReplyExact(s, a, amounts);
  }
}
