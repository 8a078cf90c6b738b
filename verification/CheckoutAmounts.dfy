/** Which answers of the server an order of the checkout screen rests on
    (apps/application/app/checkout.tsx): the amounts shown, the amounts of the fresh quote, and what
    stands in the posted order. */
module CheckoutAmounts {
  import opened Decimals
  import opened Strings
  import opened Checkout
  import opened CheckoutTheorems
  import J = JsonText

  // ----- the fields of the posted order

  /** Field x stands in the payload the source assembles for form f and tip `tip`. */
  predicate Posts(f: RawForm, tip: int, x: J.Field) {
    || x == J.Field("location_id", J.Str(f.locationId))
    || x == J.Field("fulfillment_type", J.Str(if f.delivery then "DELIVERY" else "PICKUP"))
    || x == J.Field("items", J.Arr(f.items))
    || (f.scheduledFor.Some? && f.scheduledFor.value != "" && x == J.Field("scheduled_for", J.Str(f.scheduledFor.value)))
    || (tip > 0 && x == J.Field("driver_tip_cents", J.Num(Decimal(tip))))
    || (f.delivery && f.contactless != "" && x == J.Field("contactless_pref", J.Str(f.contactless)))
    || (f.delivery && x == J.Field("delivery_quote_token", J.Str(f.deliveryToken)))
    || (f.delivery && x == J.Field("address_snapshot_json",
                                   J.Obj([J.Field("line1", J.Str(f.address.line1)), J.Field("city", J.Str(f.address.city)),
                                          J.Field("postal_code", J.Str(f.address.postalCode))])))
    || x == J.Field("payment_method", J.Str("PAY_AT_STORE"))
    || (f.paymentMethod != "ONLINE_CARD" && x == J.Field("collection_preference", J.Str(f.paymentMethod)))
    || (HasCode(f) && x == J.Field("promo_code", J.Str(Trim(f.selection.promoCode.value))))
    || (!HasCode(f) && f.selection.applyWingsReward && x == J.Field("apply_wings_reward", J.Bool(true)))
  }

  predicate HasCode(f: RawForm) {
    f.selection.promoCode.Some? && Trim(f.selection.promoCode.value) != ""
  }

  /** The posted order has each of its fields once, under the names and with the values the server
      reads, and no other. */
  lemma {:induction false} PayloadExact(f: RawForm, tip: int)
    ensures var fs := PayloadFields(f, tip, true);
            && (forall x :: x in fs <==> Posts(f, tip, x))
            && (forall i, j :: 0 <= i < j < |fs| ==> fs[i].key != fs[j].key)
  {
    HeadPosts(f, tip);
    TailPosts(f, tip);
    PayloadHas(f, tip);
    PayloadApart(f, tip);
    hide Posts, PayloadHead, PayloadTail, Optional;
  }

  lemma {:induction false} HeadPosts(f: RawForm, tip: int)
    ensures forall x :: x in PayloadHead(f, tip) + Optional(f.delivery, TOKEN, J.Str(f.deliveryToken)) ==> Posts(f, tip, x)
  {
  }

  lemma {:induction false} TailPosts(f: RawForm, tip: int)
    ensures forall x :: x in PayloadTail(f) ==> Posts(f, tip, x)
  {
  }

  /** Where a field stands among those the payload can have, told by its name's length and first letter. */
  function Rank(key: string): int {
    if |key| == 11 then 0 else if |key| == 5 then 2 else if |key| == 13 then 3 else if |key| == 20 then 7
    else if |key| == 14 then 8 else if |key| == 10 then 10 else if |key| == 18 then 11
    else if |key| == 16 then (if key[0] == 'f' then 1 else if key[0] == 'd' then 4 else 5)
    else if |key| == 21 then (if key[0] == 'a' then 6 else 9)
    else 12
  }

  predicate Ranked(fs: seq<J.Field>, n: int) {
    && (forall i :: 0 <= i < |fs| ==> Rank(fs[i].key) < n)
    && (forall i, j :: 0 <= i < j < |fs| ==> Rank(fs[i].key) < Rank(fs[j].key))
  }

  lemma {:induction false} OptionalRanked(fs: seq<J.Field>, present: bool, key: string, value: J.Value, n: int)
    requires Ranked(fs, n) && n <= Rank(key)
    ensures Ranked(fs + Optional(present, key, value), Rank(key) + 1)
  {
    hide Rank;
  }

  lemma {:induction false} HeadRanked(f: RawForm, tip: int)
    ensures Ranked(PayloadHead(f, tip), 7)
  {
    var a := [J.Field("location_id", J.Str(f.locationId)), J.Field("fulfillment_type", Fulfillment(f.delivery)),
              J.Field("items", J.Arr(f.items))];
    assert Ranked(a, 3);
    hide Ranked, Optional;
    var amount := J.Num(Decimal(if tip > 0 then tip else 0));
    OptionalRanked(a, Scheduled(f) != "", "scheduled_for", J.Str(Scheduled(f)), 3);
    var b := a + Optional(Scheduled(f) != "", "scheduled_for", J.Str(Scheduled(f)));
    OptionalRanked(b, tip > 0, "driver_tip_cents", amount, 4);
    var c := b + Optional(tip > 0, "driver_tip_cents", amount);
    OptionalRanked(c, f.delivery && f.contactless != "", "contactless_pref", J.Str(f.contactless), 5);
    var d := c + Optional(f.delivery && f.contactless != "", "contactless_pref", J.Str(f.contactless));
    OptionalRanked(d, f.delivery, "address_snapshot_json", AddressValue(f.address), 6);
  }

  lemma {:induction false} TailRanked(fs: seq<J.Field>, f: RawForm)
    requires Ranked(fs, 8)
    ensures Ranked(fs + PayloadTail(f), 12)
  {
    hide Ranked;
    var payment := J.Field("payment_method", J.Str("PAY_AT_STORE"));
    OptionalRanked(fs, true, payment.key, payment.value, 8);
    var a := fs + Optional(true, payment.key, payment.value);
    OptionalRanked(a, f.paymentMethod != "ONLINE_CARD", "collection_preference", J.Str(f.paymentMethod), 9);
    var b := a + Optional(f.paymentMethod != "ONLINE_CARD", "collection_preference", J.Str(f.paymentMethod));
    OptionalRanked(b, Code(f) != "", "promo_code", J.Str(Code(f)), 10);
    OptionalRanked(b, f.selection.applyWingsReward, "apply_wings_reward", J.Bool(true), 10);
    if Code(f) != "" {
      assert fs + PayloadTail(f) == b + Optional(true, "promo_code", J.Str(Code(f)));
      RankedFurther(fs + PayloadTail(f), 11, 12);
    } else {
      assert fs + PayloadTail(f) == b + Optional(f.selection.applyWingsReward, "apply_wings_reward", J.Bool(true));
    }
  }

  lemma {:induction false} RankedFurther(fs: seq<J.Field>, m: int, n: int)
    requires Ranked(fs, m) && m <= n
    ensures Ranked(fs, n)
  {
    hide Rank;
  }

  lemma {:induction false} PayloadApart(f: RawForm, tip: int)
    ensures var fs := PayloadFields(f, tip, true); forall i, j :: 0 <= i < j < |fs| ==> fs[i].key != fs[j].key
  {
    HeadRanked(f, tip);
    assert Rank(TOKEN) == 7;
    hide PayloadHead, PayloadTail, Optional, Rank;
    OptionalRanked(PayloadHead(f, tip), f.delivery, TOKEN, J.Str(f.deliveryToken), 7);
    TailRanked(PayloadHead(f, tip) + Optional(f.delivery, TOKEN, J.Str(f.deliveryToken)), f);
  }

  lemma {:induction false} PayloadHas(f: RawForm, tip: int)
    ensures forall x :: Posts(f, tip, x) ==> x in PayloadFields(f, tip, true)
  {
  }

  /** Folding to upper case works on each letter alone. */
  lemma {:induction false} UpperExact(s: string)
    ensures |Upper(s)| == |s|
    ensures forall i :: 0 <= i < |s| ==>
              Upper(s)[i] as int == if 'a' <= s[i] <= 'z' then s[i] as int - 32 else s[i] as int
  {
    if s != "" {
      UpperExact(s[1..]);
    }
  }

  // ----- where quotes come from

  /** The event is an answer of the server with these amounts, to a view's pricing effect or to an
      attempt's fresh quote that asked for this request. */
  predicate Answers(s: State, e: Event, request: Request, amounts: Amounts) {
    match e
    case PricingReply(k, m) => m == Some(amounts) && k < |s.views| && RequestOf(s.views[k].render) == request
    case FreshReply(a, m) =>
      m == Some(amounts) && a < |s.attempts| && s.attempts[a].view < |s.views|
      && RequestOf(s.views[s.attempts[a].view].render) == request
    case _ => false
  }

  /** Some answer among the events gave the quote. */
  ghost predicate Known(events: seq<Event>, s: State, q: Quote) {
    exists j :: 0 <= j < |events| && Answers(s, events[j], q.answers, Amounts(q.payable, q.tip, q.coupons, q.rewardDeclined))
  }

  /** Everything stays that an answer is told by. */
  predicate Grows(s: State, t: State) {
    && s.views <= t.views && |s.attempts| <= |t.attempts|
    && forall a :: 0 <= a < |s.attempts| ==> t.attempts[a].view == s.attempts[a].view && t.attempts[a].review == s.attempts[a].review
  }

  lemma {:induction false} StepGrows(s: State, e: Event)
    ensures Grows(s, Apply(s, e))
  {
    hide Grows, PlaceOrder, AfterSignIn;
    SameGrows(s);
    match e
    case Press(k, confirmed) => if k < |s.views| { PlaceGrows(s, k, confirmed, None); }
    case SignedInEffect(confirmed, authVisible) => if s.views != [] { SignInGrows(s, confirmed, authVisible); }
    case _ => OtherGrows(s, e);
  }

  lemma {:induction false} SameGrows(s: State)
    ensures Grows(s, s)
  {
  }

  lemma {:induction false} OtherGrows(s: State, e: Event)
    requires !e.Press? && !e.SignedInEffect?
    ensures Grows(s, Apply(s, e))
  {
    hide KeyText, RequestOf, CurrentQuote, Fingerprint, PayloadText, PricingBlock, ViewBlock, ReviewKey;
  }

  lemma {:induction false} SignInGrows(s: State, confirmed: bool, authVisible: bool)
    requires s.views != []
    ensures Grows(s, AfterSignIn(s, confirmed, authVisible))
  {
    PlaceGrows(s.(pendingSubmit := false), |s.views| - 1, confirmed, s.pendingReview);
    hide PlaceOrder, ViewBlock, ReviewKey;
  }

  lemma {:induction false} PlaceGrows(s: State, k: nat, confirmed: bool, review: Option<Review>)
    requires k < |s.views|
    ensures Grows(s, PlaceOrder(s, k, confirmed, review))
  {
    UnblockedShowsQuote(s.views[k]);
    hide Fingerprint, ViewBlock, ReviewKey;
  }

  lemma {:induction false} StaysKnown(events: seq<Event>, e: Event, s: State, t: State, q: Quote)
    requires Known(events, s, q) && Grows(s, t)
    ensures Known(events, t, q) && Known(events + [e], t, q)
  {
    hide RequestOf;
    var m := Amounts(q.payable, q.tip, q.coupons, q.rewardDeclined);
    var j :| 0 <= j < |events| && Answers(s, events[j], q.answers, m);
    assert Answers(t, events[j], q.answers, m);
    assert (events + [e])[j] == events[j];
  }

  /** The quotes at hand and on the screen were given by the server. */
  ghost predicate QuotesKnown(events: seq<Event>, s: State) {
    && (s.quote.Some? ==> Known(events, s, s.quote.value))
    && forall k :: 0 <= k < |s.views| && s.views[k].current.Some? ==> Known(events, s, s.views[k].current.value)
  }

  /** Event k told the quote of post p, and the quote on the screen of its attempt was known before. */
  ghost predicate FreshAt(events: seq<Event>, s: State, p: Post, k: int) {
    && 0 <= k < |events|
    && events[k] == FreshReply(p.attempt, Some(Amounts(p.requote.payable, p.requote.tip, p.requote.coupons, p.requote.rewardDeclined)))
    && HasPayload(s, p.attempt)
    && Known(events[..k], s, s.views[s.attempts[p.attempt].view].current.value)
  }

  ghost predicate PostKnown(events: seq<Event>, s: State, p: Post) {
    exists k :: FreshAt(events, s, p, k)
  }

  ghost predicate PostsKnown(events: seq<Event>, s: State) {
    forall i :: 0 <= i < |s.posts| ==> PostKnown(events, s, s.posts[i])
  }

  lemma {:induction false} PostStaysKnown(events: seq<Event>, e: Event, s: State, t: State, p: Post)
    requires PostKnown(events, s, p) && Grows(s, t)
    ensures PostKnown(events + [e], t, p)
  {
    hide Known;
    var k :| FreshAt(events, s, p, k);
    var v := s.views[s.attempts[p.attempt].view];
    StaysKnown(events[..k], e, s, t, v.current.value);
    assert (events + [e])[..k] == events[..k];
    assert FreshAt(events + [e], t, p, k);
  }

  lemma {:induction false} QuoteStaysKnown(events: seq<Event>, e: Event, s: State, t: State)
    requires s.quote.Some? ==> Known(events, s, s.quote.value)
    requires Grows(s, t) && QuoteKept(s, e, t)
    ensures t.quote.Some? ==> Known(events + [e], t, t.quote.value)
  {
    hide Grows;
    if t.quote.Some? {
      if t.quote == s.quote {
        hide Known;
        StaysKnown(events, e, s, t, t.quote.value);
      } else {
        var q := t.quote.value;
        hide Answers;
        assert (events + [e])[|events|] == e;
        assert Answers(t, (events + [e])[|events|], q.answers, Amounts(q.payable, q.tip, q.coupons, q.rewardDeclined));
      }
    }
  }

  lemma {:induction false} ViewStaysKnown(events: seq<Event>, e: Event, s: State, t: State, k: nat)
    requires QuotesKnown(events, s) && Grows(s, t) && ViewsKept(s, t)
    requires k < |t.views| && t.views[k].current.Some?
    ensures Known(events + [e], t, t.views[k].current.value)
  {
    hide Known;
    var q := if k < |s.views| then s.views[k].current.value else s.quote.value;
    assert t.views[k].current.value == q && Known(events, s, q) by { hide Grows; }
    StaysKnown(events, e, s, t, q);
  }

  lemma {:induction false} StepQuotesKnown(events: seq<Event>, e: Event, s: State)
    requires QuotesKnown(events, s)
    ensures QuotesKnown(events + [e], Apply(s, e))
  {
    var t := Apply(s, e);
    StepGrows(s, e);
    StepKeepsQuote(s, e);
    StepKeepsViews(s, e);
    hide Apply, Grows, Known, QuoteKept, ViewsKept;
    QuoteStaysKnown(events, e, s, t);
    forall k | 0 <= k < |t.views| && t.views[k].current.Some? ensures Known(events + [e], t, t.views[k].current.value) {
      ViewStaysKnown(events, e, s, t, k);
    }
  }

  /** A quote at hand that is new is the event's answer. */
  predicate QuoteKept(s: State, e: Event, t: State) {
    t.quote.Some? && t.quote != s.quote ==>
      var q := t.quote.value; Answers(t, e, q.answers, Amounts(q.payable, q.tip, q.coupons, q.rewardDeclined))
  }

  /** Views stay, and a new one shows the quote at hand or none. */
  predicate ViewsKept(s: State, t: State) {
    && |s.views| <= |t.views| <= |s.views| + 1 && t.views[..|s.views|] == s.views
    && (|t.views| > |s.views| && t.views[|s.views|].current.Some? ==> t.views[|s.views|].current == s.quote)
  }

  lemma {:induction false} StepKeepsQuote(s: State, e: Event)
    ensures QuoteKept(s, e, Apply(s, e))
  {
    hide KeyText, RequestOf, CurrentQuote, Fingerprint, PayloadText, PricingBlock, ViewBlock, ReviewKey;
  }

  lemma {:induction false} StepKeepsViews(s: State, e: Event)
    ensures ViewsKept(s, Apply(s, e))
  {
    hide KeyText, RequestOf, Fingerprint, PayloadText, PricingBlock, ViewBlock, ReviewKey;
  }

  lemma {:induction false} StepPostsKnown(events: seq<Event>, e: Event, s: State)
    requires Invariant(s) && QuotesKnown(events, s) && PostsKnown(events, s)
    ensures PostsKnown(events + [e], Apply(s, e))
  {
    StepGrows(s, e);
    StepKeepsPosts(s, e);
    hide *;
    PostsStayKnown(events, e, s, Apply(s, e));
  }

  lemma {:induction false} PostsStayKnown(events: seq<Event>, e: Event, s: State, t: State)
    requires QuotesKnown(events, s) && PostsKnown(events, s) && Grows(s, t) && PostsKept(s, e, t)
    ensures PostsKnown(events + [e], t)
  {
    forall i | 0 <= i < |t.posts| ensures PostKnown(events + [e], t, t.posts[i]) {
      hide PostKnown, Grows, QuotesKnown, PostsKnown, PostGiven;
      if i < |s.posts| {
        OldPostKnown(events, e, s, t, i);
      } else {
        PostNowKnown(events, e, s, t);
      }
    }
    hide PostKnown;
  }

  lemma {:induction false} OldPostKnown(events: seq<Event>, e: Event, s: State, t: State, i: nat)
    requires PostsKnown(events, s) && Grows(s, t) && PostsKept(s, e, t) && i < |s.posts|
    ensures PostKnown(events + [e], t, t.posts[i])
  {
    hide PostKnown, Grows, PostGiven;
    assert t.posts[..|s.posts|][i] == t.posts[i];
    PostStaysKnown(events, e, s, t, s.posts[i]);
  }

  lemma {:induction false} PostNowKnown(events: seq<Event>, e: Event, s: State, t: State)
    requires QuotesKnown(events, s) && PostsKnown(events, s) && Grows(s, t)
    requires PostsKept(s, e, t) && |t.posts| > |s.posts|
    ensures PostKnown(events + [e], t, t.posts[|s.posts|])
  {
    hide QuotesKnown, PostKnown, Grows;
    var p := t.posts[|s.posts|];
    if e.Resend? {
      var q := s.posts[|s.posts| - 1];
      PostStaysKnown(events, e, s, t, q);
      SamePostKnown(events + [e], t, q, p);
    } else {
      NewPostKnown(events, e, s, t, p);
    }
  }

  lemma {:induction false} SamePostKnown(events: seq<Event>, s: State, p: Post, q: Post)
    requires PostKnown(events, s, p) && q.attempt == p.attempt && q.requote == p.requote
    ensures PostKnown(events, s, q)
  {
    hide Known;
    var k :| FreshAt(events, s, p, k);
    assert FreshAt(events, s, q, k);
  }

  lemma {:induction false} NewPostKnown(events: seq<Event>, e: Event, s: State, t: State, p: Post)
    requires QuotesKnown(events, s) && Grows(s, t) && HasPayload(s, p.attempt)
    requires e == FreshReply(p.attempt, Some(Amounts(p.requote.payable, p.requote.tip, p.requote.coupons, p.requote.rewardDeclined)))
    ensures PostKnown(events + [e], t, p)
  {
    hide Known;
    var v := s.views[s.attempts[p.attempt].view];
    StaysKnown(events, e, s, t, v.current.value);
    assert (events + [e])[..|events|] == events;
    assert FreshAt(events + [e], t, p, |events|);
  }

  /** At most one request goes out. */
  predicate PostsKept(s: State, e: Event, t: State) {
    && |s.posts| <= |t.posts| <= |s.posts| + 1 && t.posts[..|s.posts|] == s.posts
    && (|t.posts| > |s.posts| ==> PostGiven(s, e, t.posts[|s.posts|]))
  }

  /** The request is for the event's fresh quote or repeats the last one. */
  predicate PostGiven(s: State, e: Event, p: Post) {
    && HasPayload(s, p.attempt)
    && (if e.Resend? then
          s.posts != [] && p.attempt == s.posts[|s.posts| - 1].attempt && p.requote == s.posts[|s.posts| - 1].requote
        else
          e == FreshReply(p.attempt, Some(Amounts(p.requote.payable, p.requote.tip, p.requote.coupons, p.requote.rewardDeclined))))
  }

  lemma {:induction false} LastPost(s: State, a: nat)
    requires Invariant(s) && Running(s, a, Posting)
    ensures s.posts != [] && s.posts[|s.posts| - 1].attempt == a
  {
    PostingHasPosted(s, a);
  }

  lemma {:induction false} ResendKeepsPosts(s: State, a: nat)
    requires Invariant(s)
    ensures PostsKept(s, Resend(a), Apply(s, Resend(a)))
  {
    hide Invariant, PayloadText;
    if Running(s, a, Posting) {
      LastPost(s, a);
    }
  }

  lemma {:induction false} FreshReplyKeepsPosts(s: State, a: nat, amounts: Option<Amounts>)
    ensures PostsKept(s, FreshReply(a, amounts), Apply(s, FreshReply(a, amounts)))
  {
    hide KeyText, RequestOf, PayloadText, PricingBlock;
  }

  lemma {:induction false} StepKeepsPosts(s: State, e: Event)
    requires Invariant(s)
    ensures PostsKept(s, e, Apply(s, e))
  {
    hide Invariant, KeyText, RequestOf, CurrentQuote, Fingerprint, PricingBlock, ViewBlock, ReviewKey, FreshQuoted, Sent, PostGiven;
    match e
    case Resend(a) => ResendKeepsPosts(s, a);
    case FreshReply(a, amounts) => FreshReplyKeepsPosts(s, a, amounts);
    case _ =>
  }

  // ----- what an attempt started from

  /** The event by which attempt x started: a confirmed press in its view, or, with a review, the
      confirmed effect after sign-in. */
  predicate StartedBy(e: Event, x: Attempt) {
    if x.review.None? then e == Press(x.view, true) else e == SignedInEffect(true, false)
  }

  /** The view has something to order, is signed in, and has its address and delivery quote. */
  predicate Orderable(r: Render) {
    r.form.items != [] && r.signedIn && (r.form.delivery ==> r.addressTyped && r.deliveryReady)
  }

  ghost predicate AttemptGuarded(events: seq<Event>, s: State, x: Attempt) {
    && x.view < |s.views| && Orderable(s.views[x.view].render)
    && exists j :: 0 <= j < |events| && StartedBy(events[j], x)
  }

  ghost predicate AttemptsGuarded(events: seq<Event>, s: State) {
    forall a :: 0 <= a < |s.attempts| ==> AttemptGuarded(events, s, s.attempts[a])
  }

  lemma {:induction false} StaysGuarded(events: seq<Event>, e: Event, s: State, t: State, x: Attempt, y: Attempt)
    requires AttemptGuarded(events, s, x) && s.views <= t.views && y.view == x.view && y.review == x.review
    ensures AttemptGuarded(events + [e], t, y)
  {
    var j :| 0 <= j < |events| && StartedBy(events[j], x);
    assert (events + [e])[j] == events[j];
    assert StartedBy((events + [e])[j], y);
    hide Orderable;
  }

  /** A new attempt is started by the event. */
  predicate AttemptsKept(s: State, e: Event, t: State) {
    && |t.attempts| <= |s.attempts| + 1
    && (|t.attempts| > |s.attempts| ==> NewAttempt(e, t, t.attempts[|s.attempts|]))
  }

  predicate NewAttempt(e: Event, t: State, x: Attempt) {
    StartedBy(e, x) && x.view < |t.views| && Orderable(t.views[x.view].render)
  }

  lemma {:induction false} PlaceKeepsAttempts(s: State, k: nat, confirmed: bool, review: Option<Review>)
    requires k < |s.views|
    ensures var t := PlaceOrder(s, k, confirmed, review);
            && t.views == s.views && |t.attempts| <= |s.attempts| + 1
            && (|t.attempts| > |s.attempts| ==>
                  && confirmed && Orderable(s.views[k].render)
                  && t.attempts[|s.attempts|].view == k && t.attempts[|s.attempts|].review == review)
  {
    UnblockedShowsQuote(s.views[k]);
    hide ViewBlock, Fingerprint, ReviewKey;
  }

  lemma {:induction false} PressKeepsAttempts(s: State, k: nat, confirmed: bool)
    ensures AttemptsKept(s, Press(k, confirmed), Apply(s, Press(k, confirmed)))
  {
    if k < |s.views| { PlaceKeepsAttempts(s, k, confirmed, None); }
    hide PlaceOrder, Orderable;
  }

  lemma {:induction false} SignInKeepsAttempts(s: State, confirmed: bool, authVisible: bool)
    ensures var e := SignedInEffect(confirmed, authVisible); AttemptsKept(s, e, Apply(s, e))
  {
    if s.views != [] { PlaceKeepsAttempts(s.(pendingSubmit := false), |s.views| - 1, confirmed, s.pendingReview); }
    hide PlaceOrder, Orderable, ViewBlock, ReviewKey;
  }

  lemma {:induction false} OtherKeepsAttempts(s: State, e: Event)
    requires !e.Press? && !e.SignedInEffect?
    ensures AttemptsKept(s, e, Apply(s, e))
  {
    hide NewAttempt, KeyText, RequestOf, CurrentQuote, PayloadText, PricingBlock;
  }

  lemma {:induction false} StepKeepsAttempts(s: State, e: Event)
    ensures AttemptsKept(s, e, Apply(s, e))
  {
    hide *;
    match e
    case Press(k, confirmed) => PressKeepsAttempts(s, k, confirmed);
    case SignedInEffect(confirmed, authVisible) => SignInKeepsAttempts(s, confirmed, authVisible);
    case _ => OtherKeepsAttempts(s, e);
  }

  lemma {:induction false} AttemptStaysGuarded(events: seq<Event>, e: Event, s: State, t: State, a: nat)
    requires AttemptsGuarded(events, s) && Grows(s, t) && AttemptsKept(s, e, t) && a < |t.attempts|
    ensures AttemptGuarded(events + [e], t, t.attempts[a])
  {
    if a < |s.attempts| {
      hide AttemptGuarded;
      StaysGuarded(events, e, s, t, s.attempts[a], t.attempts[a]);
    } else {
      hide Orderable;
      assert (events + [e])[|events|] == e;
      assert StartedBy((events + [e])[|events|], t.attempts[a]);
    }
  }

  lemma {:induction false} StepAttemptsGuarded(events: seq<Event>, e: Event, s: State)
    requires AttemptsGuarded(events, s)
    ensures AttemptsGuarded(events + [e], Apply(s, e))
  {
    var t := Apply(s, e);
    StepGrows(s, e);
    StepKeepsAttempts(s, e);
    hide Apply, Grows, AttemptsKept, AttemptGuarded;
    forall a | 0 <= a < |t.attempts| ensures AttemptGuarded(events + [e], t, t.attempts[a]) {
      AttemptStaysGuarded(events, e, s, t, a);
    }
  }

  /** A view shows a quote as current only when it is complete and nothing is pending or wrong. */
  predicate ShowsReady(v: View) {
    v.current.Some? ==>
      && v.render.hydrated && v.render.deliveryReady && !v.render.loading && !v.render.error
      && !(v.render.form.delivery && v.render.estimate)
  }

  predicate ViewsReady(s: State) {
    forall k :: 0 <= k < |s.views| ==> ShowsReady(s.views[k])
  }

  lemma {:induction false} StepViewsReady(s: State, e: Event)
    requires ViewsReady(s)
    ensures ViewsReady(Apply(s, e))
  {
    StepKeepsViews(s, e);
    hide KeyText, RequestOf, Fingerprint, PayloadText, PricingBlock, ViewBlock, ReviewKey;
  }

  ghost predicate Sourced(events: seq<Event>, s: State) {
    Invariant(s) && QuotesKnown(events, s) && PostsKnown(events, s) && AttemptsGuarded(events, s) && ViewsReady(s)
  }

  lemma {:induction false} StepSourced(events: seq<Event>, e: Event, s: State)
    requires Sourced(events, s)
    ensures Sourced(events + [e], Apply(s, e))
  {
    hide Invariant, QuotesKnown, PostsKnown, AttemptsGuarded, ViewsReady, Apply;
    StepKeeps(s, e);
    StepQuotesKnown(events, e, s);
    StepPostsKnown(events, e, s);
    StepAttemptsGuarded(events, e, s);
    StepViewsReady(s, e);
  }

  lemma {:induction false} RunUnfolds(events: seq<Event>)
    requires events != []
    ensures Run(events) == Apply(Run(events[..|events| - 1]), events[|events| - 1])
  {
    hide Apply;
  }

  lemma {:induction false} RunSourced(events: seq<Event>)
    ensures Sourced(events, Run(events))
  {
    hide *;
    if events == [] {
      NothingSourced();
    } else {
      var n := |events| - 1;
      RunSourced(events[..n]);
      StepSourced(events[..n], events[n], Run(events[..n]));
      RunUnfolds(events);
      assert events[..n] + [events[n]] == events;
    }
  }

  lemma {:induction false} NothingSourced()
    ensures Sourced([], Run([]))
  {
  }

  // ----- the main results

  /** Every order posted rests on two answers of the server for one request, that of the view it was
      ordered from. An earlier answer gave the quote that view showed, and a later one answered this
      attempt's fresh quote. The two agree in the amount to pay and in the tip. The later one declines
      no reward the form applies and has applied the form's code, and its tip is the one posted. */
  lemma {:induction false} PostsRestOnAnswers(events: seq<Event>, i: nat)
    requires i < |Run(events).posts|
    ensures var s := Run(events);
            var p := s.posts[i];
            && p.attempt < |s.attempts| && s.attempts[p.attempt].view < |s.views|
            && var v := s.views[s.attempts[p.attempt].view];
            var f := v.render.form;
            && v.current.Some?
            && exists j, k, a, b :: 0 <= j < k < |events|
                 && Answers(s, events[j], RequestOf(v.render), a)
                 && events[k] == FreshReply(p.attempt, Some(b))
                 && v.current.value.payable == a.payable && v.current.value.tip == a.tip
                 && a.payable == b.payable && a.tip == b.tip
                 && (f.selection.applyWingsReward ==> !a.rewardDeclined && !b.rewardDeclined)
                 && (HasCode(f) ==> Upper(Trim(f.selection.promoCode.value)) in a.coupons * b.coupons)
                 && p.payload == J.Stringify(J.Obj(PayloadFields(f, b.tip, true)))
  {
    RunSourced(events);
    hide *;
    PostRests(events, Run(events), i);
  }

  lemma {:induction false} PostRests(events: seq<Event>, s: State, i: nat)
    requires Sourced(events, s) && i < |s.posts|
    ensures var p := s.posts[i];
            && p.attempt < |s.attempts| && s.attempts[p.attempt].view < |s.views|
            && var v := s.views[s.attempts[p.attempt].view];
            var f := v.render.form;
            && v.current.Some?
            && exists j, k, a, b :: 0 <= j < k < |events|
                 && Answers(s, events[j], RequestOf(v.render), a)
                 && events[k] == FreshReply(p.attempt, Some(b))
                 && v.current.value.payable == a.payable && v.current.value.tip == a.tip
                 && a.payable == b.payable && a.tip == b.tip
                 && (f.selection.applyWingsReward ==> !a.rewardDeclined && !b.rewardDeclined)
                 && (HasCode(f) ==> Upper(Trim(f.selection.promoCode.value)) in a.coupons * b.coupons)
                 && p.payload == J.Stringify(J.Obj(PayloadFields(f, b.tip, true)))
  {
    hide RequestOf, PayloadFields, J.Stringify, Upper, Trim, Fingerprint, AsReviewed, ReviewSound, KeysSound, ReferenceSound,
         AttemptsGuarded, ViewsReady, QuotesKnown, Grows;
    var p := s.posts[i];
    assert PostKnown(events, s, p);
    hide PostsKnown;
    assert PostSound(s.views, s.attempts, p);
    assert AttemptSound(s.views, s.attempts[p.attempt]);
    var v := s.views[s.attempts[p.attempt].view];
    assert ViewSound(v);
    var q, r := v.current.value, p.requote;
    var k :| FreshAt(events, s, p, k);
    var a, b := Amounts(q.payable, q.tip, q.coupons, q.rewardDeclined), Amounts(r.payable, r.tip, r.coupons, r.rewardDeclined);
    var j :| 0 <= j < k && Answers(s, events[..k][j], q.answers, a);
    assert events[..k][j] == events[j];
  }

  /** The view an order is placed from had items, a signed-in customer, no pending or failed pricing,
      and for a delivery a typed address and a firm delivery quote; the customer confirmed. */
  lemma {:induction false} PostsWereConfirmed(events: seq<Event>, i: nat)
    requires i < |Run(events).posts|
    ensures var s := Run(events);
            && s.posts[i].attempt < |s.attempts|
            && var x := s.attempts[s.posts[i].attempt];
            && x.view < |s.views|
            && var r := s.views[x.view].render;
            && r.form.items != [] && r.signedIn && r.hydrated && !r.loading && !r.error
            && (r.form.delivery ==> r.addressTyped && r.deliveryReady && !r.estimate)
            && exists j :: 0 <= j < |events|
                 && (events[j] == Press(x.view, true) || (x.review.Some? && events[j] == SignedInEffect(true, false)))
  {
    RunSourced(events);
    hide Run, RequestOf, PayloadText, PricingBlock, ViewBlock, Fingerprint, AsReviewed, ReviewSound, KeysSound, ReferenceSound,
         PostsKnown, QuotesKnown;
    var s := Run(events);
    assert PostSound(s.views, s.attempts, s.posts[i]);
    var x := s.attempts[s.posts[i].attempt];
    assert AttemptGuarded(events, s, x) && ShowsReady(s.views[x.view]);
    var j :| 0 <= j < |events| && StartedBy(events[j], x);
  }

  /** The amounts are those shown and raise no block for form f. */
  predicate Agrees(f: RawForm, shown: Quote, b: Amounts) {
    && b.payable == shown.payable && b.tip == shown.tip
    && (f.selection.applyWingsReward ==> !b.rewardDeclined)
    && (HasCode(f) ==> Upper(Trim(f.selection.promoCode.value)) in b.coupons)
  }

  /** From s to t attempt a ended without success, nothing was posted, and the amounts became the quote
      at hand, filed for request r. */
  predicate Requoted(s: State, t: State, a: nat, b: Amounts, r: Request) {
    && t.posts == s.posts && !t.submitting && a < |t.attempts| && t.attempts[a].phase == Over(false)
    && t.pricedKey == Some(KeyText(r))
    && t.quote.Some? && t.quote.value.answers == r
    && t.quote.value.payable == b.payable && t.quote.value.tip == b.tip
    && t.quote.value.coupons == b.coupons && t.quote.value.rewardDeclined == b.rewardDeclined
  }

  /** From s to t attempt a posted its first request: the payload of form f with this tip. */
  predicate Posted(s: State, t: State, a: nat, f: RawForm, tip: int) {
    && a < |s.attempts| && t.quote == s.quote && t.submitting == s.submitting
    && a < |t.attempts| && t.attempts[a].phase.Posting? && t.attempts[a].sent == 1
    && |t.posts| == |s.posts| + 1 && t.posts[..|s.posts|] == s.posts
    && t.posts[|s.posts|].attempt == a && t.posts[|s.posts|].idempotencyKey == s.attempts[a].idempotencyKey
    && t.posts[|s.posts|].payload == J.Stringify(J.Obj(PayloadFields(f, tip, true)))
  }

  /** From s to t the fresh quote of attempt a was answered. Without an answer, or when the screen has
      moved on to another request, the attempt ends and nothing else changes. Amounts that differ from
      those shown, or that raise a block, post nothing, end the attempt and are the quote at hand from
      then on. The same amounts without a block post the order. */
  predicate FreshAnswered(s: State, t: State, a: nat, answer: Option<Amounts>) {
    && HasPayload(s, a)
    && var v := s.views[s.attempts[a].view];
    if answer.None? || RequestOf(s.views[|s.views| - 1].render) != RequestOf(v.render) then
      t == s.(submitting := false, attempts := s.attempts[a := s.attempts[a].(phase := Over(false))])
    else if Agrees(v.render.form, v.current.value, answer.value) then
      Posted(s, t, a, v.render.form, answer.value.tip)
    else
      Requoted(s, t, a, answer.value, RequestOf(v.render))
  }

  /** An order is posted exactly on an answer that agrees with what was shown, in every reachable state. */
  lemma {:induction false} FreshReplyExact(s: State, a: nat, answer: Option<Amounts>)
    requires Invariant(s) && a < |s.attempts| && s.attempts[a].phase.Quoting?
    ensures FreshAnswered(s, Apply(s, FreshReply(a, answer)), a, answer)
  {
    QuotingHasQuote(s, a);
    FreshReplyDoes(s, a, answer);
    var v := s.views[s.attempts[a].view];
    KeyExact(RequestOf(s.views[|s.views| - 1].render), RequestOf(v.render));
    hide Invariant, Apply, KeyText, RequestOf, Agrees, Posted, Requoted;
  }

  lemma {:induction false} QuotingHasQuote(s: State, a: nat)
    requires Invariant(s) && a < |s.attempts| && s.attempts[a].phase.Quoting?
    ensures HasPayload(s, a) && s.attempts[a].sent == 0 && s.latest == Key(s.views[|s.views| - 1].render)
  {
    assert AttemptSound(s.views, s.attempts[a]) by { hide AttemptSound, KeysSound, PostsSound, ReferenceSound, ReviewSound, QuotesFiled; }
    hide KeyText, RequestOf, Fingerprint, AsReviewed, ReviewSound, KeysSound, PostsSound, ReferenceSound, AttemptsSound, ViewBlock;
  }

  lemma {:induction false} FreshReplyDoes(s: State, a: nat, answer: Option<Amounts>)
    requires HasPayload(s, a) && s.attempts[a].phase.Quoting? && s.attempts[a].sent == 0
    ensures var t := Apply(s, FreshReply(a, answer));
            var v := s.views[s.attempts[a].view];
            if answer.None? || s.latest != Key(v.render) then
              t == s.(submitting := false, attempts := s.attempts[a := s.attempts[a].(phase := Over(false))])
            else if Agrees(v.render.form, v.current.value, answer.value) then
              Posted(s, t, a, v.render.form, answer.value.tip)
            else
              Requoted(s, t, a, answer.value, RequestOf(v.render))
  {
    hide KeyText, RequestOf, PayloadFields, J.Stringify, Upper, Trim;
  }

  /** From s to t the pricing effect of view k was answered: a failure leaves no quote, an answer to
      what the latest view asks is the quote at hand, and any other is dropped. */
  predicate PricingAnswered(s: State, t: State, k: nat, answer: Option<Amounts>) {
    && k < |s.views|
    && var r := RequestOf(s.views[k].render);
    if answer.None? then t == s.(quote := None)
    else if r != RequestOf(s.views[|s.views| - 1].render) then t == s
    else
      var m := answer.value;
      t == s.(quote := Some(Quote(r, m.payable, m.tip, m.coupons, m.rewardDeclined)), pricedKey := Some(KeyText(r)))
  }

  lemma {:induction false} PricingReplyExact(s: State, k: nat, answer: Option<Amounts>)
    requires Invariant(s) && k < |s.views|
    ensures PricingAnswered(s, Apply(s, PricingReply(k, answer)), k, answer)
  {
    KeyExact(RequestOf(s.views[|s.views| - 1].render), RequestOf(s.views[k].render));
    hide KeyText, RequestOf, AttemptsSound, ReviewSound, KeysSound, PostsSound, ReferenceSound;
  }

  /** The quote a new view of render r shows as current, when q is the quote at hand: q exactly if it
      answers what this render asks, and the render is complete with nothing pending or wrong. */
  predicate ShowsExactly(current: Option<Quote>, q: Option<Quote>, r: Render) {
    current == if q.Some? && q.value.answers == RequestOf(r) && r.hydrated && r.deliveryReady && !r.loading && !r.error
                  && (r.form.delivery ==> !r.estimate)
               then q else None
  }

  lemma {:induction false} RerenderExact(s: State, r: Render)
    requires Invariant(s)
    ensures ShowsExactly(CurrentQuote(s, r), s.quote, r)
  {
    if s.quote.Some? {
      KeyExact(s.quote.value.answers, RequestOf(r));
    }
    hide KeyText, RequestOf, AttemptsSound, ReviewSound, KeysSound, PostsSound, ReferenceSound;
  }

  /** View v shows a current quote that blocks nothing, and what is ordered can be: something in the
      cart, and for a delivery a typed address and a firm delivery quote. */
  predicate Placeable(v: View) {
    && v.current.Some? && v.render.hydrated && !v.render.loading && !v.render.error
    && (v.render.form.selection.applyWingsReward ==> !v.current.value.rewardDeclined)
    && (HasCode(v.render.form) ==> Upper(Trim(v.render.form.selection.promoCode.value)) in v.current.value.coupons)
    && v.render.form.items != [] && (v.render.form.delivery ==> v.render.addressTyped && v.render.deliveryReady)
  }

  /** A press starts one attempt from its view exactly when no attempt is under way, the customer
      confirms and is signed in, and the order can be placed. A customer who is not signed in gets the
      total reviewed instead, and an order that cannot be placed changes nothing. */
  lemma {:induction false} PressExact(s: State, k: nat, confirmed: bool)
    requires k < |s.views|
    ensures var t := Apply(s, Press(k, confirmed));
            var v := s.views[k];
            if s.submitting || v.render.form.items == [] then t == s
            else if !confirmed then t == s.(pendingSubmit := false)
            else if !Placeable(v) then t == s
            else if !v.render.signedIn then
              t == s.(pendingSubmit := true, pendingReview := Some(Review(ReviewKey(v.render.form), v.current.value.payable, k)))
            else
              && t.submitting && |t.attempts| == |s.attempts| + 1 && t.attempts[..|s.attempts|] == s.attempts
              && t.attempts[|s.attempts|].view == k && t.attempts[|s.attempts|].review.None?
              && t.attempts[|s.attempts|].phase.Quoting? && t.attempts[|s.attempts|].sent == 0
              && t.quote == s.quote && t.posts == s.posts
  {
    hide Fingerprint, ReviewKey, Upper, Trim;
  }

  lemma {:induction false} PlaceableUnblocked(v: View)
    ensures Placeable(v) ==> v.current.Some? && ViewBlock(v).None?
    ensures && v.current.Some? && ViewBlock(v).None?
            && v.render.form.items != [] && (v.render.form.delivery ==> v.render.addressTyped && v.render.deliveryReady)
            ==> Placeable(v)
  {
    hide Upper, Trim;
  }

  lemma {:induction false} PlaceStartsExactly(s: State, k: nat, confirmed: bool, review: Option<Review>)
    requires k < |s.views|
    ensures |PlaceOrder(s, k, confirmed, review).attempts| == |s.attempts| + 1 <==>
              !s.submitting && confirmed && s.views[k].render.signedIn && Placeable(s.views[k])
  {
    var v := s.views[k];
    PlaceableUnblocked(v);
    assert Placeable(v) ==> v.render.form.items != [] && (v.render.form.delivery ==> v.render.addressTyped && v.render.deliveryReady);
    hide Placeable, ViewBlock, Fingerprint, ReviewKey;
  }

  /** What was reviewed before signing in is the order of view v, at its total. */
  predicate ReviewedIs(s: State, v: View) {
    && s.pendingReview.Some? && s.pendingReview.value.view < |s.views| && v.current.Some?
    && SameReview(s.views[s.pendingReview.value.view].render.form, v.render.form)
    && s.pendingReview.value.total == v.current.value.payable
  }

  lemma {:induction false} ReviewedExact(s: State, v: View)
    requires ReviewSound(s.views, s.pendingReview) && v.current.Some?
    ensures ReviewedIs(s, v) <==>
              s.pendingReview.Some? && s.pendingReview.value.key == ReviewKey(v.render.form)
              && s.pendingReview.value.total == v.current.value.payable
  {
    hide ReviewKey, SameReview;
    if s.pendingReview.Some? {
      ReviewExact(s.views[s.pendingReview.value.view].render.form, v.render.form);
    }
  }

  lemma {:induction false} SignInStartsExactly(s: State, confirmed: bool, authVisible: bool)
    requires ReviewSound(s.views, s.pendingReview) && s.views != []
    ensures var v := s.views[|s.views| - 1];
            |AfterSignIn(s, confirmed, authVisible).attempts| == |s.attempts| + 1 <==>
              s.pendingSubmit && !authVisible && confirmed && !s.submitting && v.render.signedIn && Placeable(v) && ReviewedIs(s, v)
  {
    var v := s.views[|s.views| - 1];
    if v.current.Some? {
      ReviewedExact(s, v);
    }
    PlaceableUnblocked(v);
    PlaceStartsExactly(s.(pendingSubmit := false), |s.views| - 1, confirmed, s.pendingReview);
    hide PlaceOrder, Placeable, ViewBlock, ReviewKey, ReviewedIs, ReviewSound;
  }

  lemma {:induction false} PendingSound(s: State)
    requires Invariant(s)
    ensures ReviewSound(s.views, s.pendingReview)
  {
    hide QuotesFiled, ReviewSound, AttemptsSound, ReferenceSound, KeysSound, PostsSound;
  }

  /** After sign-in the order is submitted exactly if it still waits for that, the customer confirms, the
      order can be placed, and it is the one reviewed, at the total reviewed. */
  lemma {:induction false} SignedInExact(s: State, confirmed: bool, authVisible: bool)
    requires Invariant(s) && s.views != []
    ensures var v := s.views[|s.views| - 1];
            |Apply(s, SignedInEffect(confirmed, authVisible)).attempts| == |s.attempts| + 1 <==>
              s.pendingSubmit && !authVisible && confirmed && !s.submitting && v.render.signedIn && Placeable(v) && ReviewedIs(s, v)
  {
    hide AfterSignIn, Invariant, Placeable, ReviewedIs, ReviewSound;
    PendingSound(s);
    SignInStartsExactly(s, confirmed, authVisible);
  }
}
