/** Order submission: `quoteSelection`, `placeOrder` and the submission after sign-in
    (apps/application/app/checkout.tsx), with `checkoutPricingBlock`
    (apps/application/src/lib/payment-options.ts).

    Renders, presses, quotes and replies come in any order. A quote remembers the request it
    answers; a POST is logged with what was true when it was sent. */
module Checkout {
  import opened Decimals
  import opened Strings
  import J = JsonText
  import Q = CartQuotes

  // ----- what is priced, reviewed and posted

  datatype Address = Address(line1: string, city: string, postalCode: string)

  /** The checkout form of one render, its items as `checkoutItems` sends them. */
  datatype RawForm = RawForm(
    locationId: string,
    delivery: bool,
    items: seq<J.Value>,
    scheduledFor: Option<string>,
    contactless: string,
    address: Address,
    deliveryToken: string,
    paymentMethod: string,
    tip: Q.Tip,
    selection: Q.Selection)

  ghost predicate AllJson(items: seq<J.Value>) {
    forall k :: 0 <= k < |items| ==> J.Json(items[k])
  }

  type Form = f: RawForm | AllJson(f.items)
    witness RawForm("", false, [], None, "", Address("", "", ""), "", "", Q.NoTip, Q.Selection(None, false))

  /** What `quoteSelection` asks for, and for whom: the inputs of the checkout key. */
  datatype RawRequest = RawRequest(
    customer: string,
    locationId: string,
    delivery: bool,
    items: seq<J.Value>,
    scheduledFor: Option<string>,
    tip: Q.Tip,
    token: Option<string>,
    address: Option<Address>,
    selection: Q.Selection)

  type Request = a: RawRequest | AllJson(a.items)
    witness RawRequest("", "", false, [], None, Q.NoTip, None, None, Q.Selection(None, false))

  function AddressValue(a: Address): J.Value {
    J.Obj([J.Field("line1", J.Str(a.line1)), J.Field("city", J.Str(a.city)), J.Field("postal_code", J.Str(a.postalCode))])
  }

  function Fulfillment(delivery: bool): J.Value {
    J.Str(if delivery then "DELIVERY" else "PICKUP")
  }

  function KeyFields(a: RawRequest): seq<J.Field> {
    [J.Field("locationId", J.Str(a.locationId)), J.Field("customerKey", J.Str(a.customer)),
     J.Field("items", J.Arr(a.items)), J.Field("fulfillmentType", Fulfillment(a.delivery)),
     J.Field("scheduledFor", Q.OrNull(a.scheduledFor)), J.Field("driverTipPercent", Q.TipValue(a.tip)),
     J.Field("deliveryQuoteToken", Q.OrNull(a.token)),
     J.Field("deliveryAddress", if a.address.Some? then AddressValue(a.address.value) else J.Null),
     J.Field("promoCode", Q.OrNull(a.selection.promoCode)), J.Field("applyWingsReward", J.Bool(a.selection.applyWingsReward))]
  }

  /** `quoteKey`. */
  function KeyText(a: RawRequest): string {
    J.Stringify(J.Obj(KeyFields(a)))
  }

  function ReviewFields(f: RawForm): seq<J.Field> {
    [J.Field("locationId", J.Str(f.locationId)), J.Field("items", J.Arr(f.items)),
     J.Field("fulfillmentType", Fulfillment(f.delivery)), J.Field("scheduledFor", Q.OrNull(f.scheduledFor)),
     J.Field("deliveryAddress", AddressValue(f.address)), J.Field("driverTipPercent", Q.TipValue(f.tip)),
     J.Field("promoCode", Q.OrNull(f.selection.promoCode)), J.Field("applyWingsReward", J.Bool(f.selection.applyWingsReward))]
  }

  /** `authReviewKey`. */
  function ReviewKey(f: RawForm): string {
    J.Stringify(J.Obj(ReviewFields(f)))
  }

  lemma {:induction false} KeyFieldsJson(a: Request)
    ensures J.Json(J.Obj(KeyFields(a)))
  {
    var fs := KeyFields(a);
    forall k | 0 <= k < |fs| ensures J.Json(fs[k].value) {
    }
  }

  lemma {:induction false} ReviewFieldsJson(f: Form)
    ensures J.Json(J.Obj(ReviewFields(f)))
  {
    var fs := ReviewFields(f);
    forall k | 0 <= k < |fs| ensures J.Json(fs[k].value) {
    }
  }

  lemma {:induction false} AddressDetermined(a: Address, b: Address)
    requires AddressValue(a) == AddressValue(b)
    ensures a == b
  {
    var f, g := AddressValue(a).fields, AddressValue(b).fields;
    assert f[0] == g[0] && f[1] == g[1] && f[2] == g[2];
  }

  /** Two requests have one checkout key exactly when they agree in every input, the customer included. */
  lemma {:induction false} KeyExact(a: Request, b: Request)
    ensures KeyText(a) == KeyText(b) <==> a == b
  {
    hide KeyFields, J.Stringify, J.Json;
    if KeyText(a) == KeyText(b) {
      KeyFieldsJson(a);
      KeyFieldsJson(b);
      J.StringifyInjective(J.Obj(KeyFields(a)), J.Obj(KeyFields(b)));
      KeyFieldsDetermine(a, b);
    }
  }

  lemma {:induction false} KeyFieldsDetermine(a: RawRequest, b: RawRequest)
    requires KeyFields(a) == KeyFields(b)
    ensures a == b
  {
    var f, g := KeyFields(a), KeyFields(b);
    assert f[0] == g[0] && f[1] == g[1] && f[2] == g[2] && f[3] == g[3] && f[4] == g[4];
    assert f[5] == g[5] && f[6] == g[6] && f[7] == g[7] && f[8] == g[8] && f[9] == g[9];
    if a.address.Some? && b.address.Some? {
      AddressDetermined(a.address.value, b.address.value);
    }
  }

  /** The forms agree in everything the customer reviews before signing in. */
  predicate SameReview(f: RawForm, g: RawForm) {
    && f.locationId == g.locationId && f.items == g.items && f.delivery == g.delivery && f.scheduledFor == g.scheduledFor
    && f.address == g.address && f.tip == g.tip && f.selection == g.selection
  }

  lemma {:induction false} ReviewExact(f: Form, g: Form)
    ensures ReviewKey(f) == ReviewKey(g) <==> SameReview(f, g)
  {
    hide ReviewFields, J.Stringify, J.Json, SameReview;
    if ReviewKey(f) == ReviewKey(g) {
      ReviewFieldsJson(f);
      ReviewFieldsJson(g);
      J.StringifyInjective(J.Obj(ReviewFields(f)), J.Obj(ReviewFields(g)));
    }
    ReviewFieldsDetermine(f, g);
  }

  lemma {:induction false} ReviewFieldsDetermine(f: RawForm, g: RawForm)
    ensures ReviewFields(f) == ReviewFields(g) <==> SameReview(f, g)
  {
    var a, b := ReviewFields(f), ReviewFields(g);
    if a == b {
      assert a[0] == b[0] && a[1] == b[1] && a[2] == b[2] && a[3] == b[3];
      assert a[4] == b[4] && a[5] == b[5] && a[6] == b[6] && a[7] == b[7];
      AddressDetermined(f.address, g.address);
    }
  }

  const TOKEN := "delivery_quote_token"

  function Optional(present: bool, key: string, value: J.Value): seq<J.Field> {
    if present then [J.Field(key, value)] else []
  }

  function Scheduled(f: RawForm): string {
    if f.scheduledFor.Some? then f.scheduledFor.value else ""
  }

  /** The coupon code of the selection, or nothing. */
  function Code(f: RawForm): string {
    if f.selection.promoCode.Some? then Trim(f.selection.promoCode.value) else ""
  }

  function PayloadHead(f: RawForm, tip: int): seq<J.Field> {
    [J.Field("location_id", J.Str(f.locationId)),
     J.Field("fulfillment_type", Fulfillment(f.delivery)),
     J.Field("items", J.Arr(f.items))]
    + Optional(Scheduled(f) != "", "scheduled_for", J.Str(Scheduled(f)))
    + Optional(tip > 0, "driver_tip_cents", J.Num(Decimal(if tip > 0 then tip else 0)))
    + Optional(f.delivery && f.contactless != "", "contactless_pref", J.Str(f.contactless))
    + Optional(f.delivery, "address_snapshot_json", AddressValue(f.address))
  }

  function PayloadTail(f: RawForm): seq<J.Field> {
    [J.Field("payment_method", J.Str("PAY_AT_STORE"))]
    + Optional(f.paymentMethod != "ONLINE_CARD", "collection_preference", J.Str(f.paymentMethod))
    + (if Code(f) != "" then [J.Field("promo_code", J.Str(Code(f)))]
       else Optional(f.selection.applyWingsReward, "apply_wings_reward", J.Bool(true)))
  }

  /** The payload, with or without the delivery token. */
  function PayloadFields(f: RawForm, tip: int, token: bool): seq<J.Field> {
    PayloadHead(f, tip)
    + Optional(f.delivery && token, TOKEN, J.Str(f.deliveryToken))
    + PayloadTail(f)
  }

  function PayloadText(f: RawForm, tip: int): string {
    J.Stringify(J.Obj(PayloadFields(f, tip, true)))
  }

  /** `JSON.stringify(logicalPayload)`. */
  function Fingerprint(f: RawForm, tip: int): string {
    J.Stringify(J.Obj(PayloadFields(f, tip, false)))
  }

  function Deleted(fs: seq<J.Field>, key: string): seq<J.Field> {
    if fs == [] then [] else (if fs[0].key == key then [] else [fs[0]]) + Deleted(fs[1..], key)
  }

  lemma {:induction false} DeletedConcat(a: seq<J.Field>, b: seq<J.Field>, key: string)
    ensures Deleted(a + b, key) == Deleted(a, key) + Deleted(b, key)
  {
    if a == [] {
      assert a + b == b;
    } else {
      assert (a + b)[1..] == a[1..] + b;
      DeletedConcat(a[1..], b, key);
    }
  }

  predicate Absent(fs: seq<J.Field>, key: string) {
    forall i :: 0 <= i < |fs| ==> fs[i].key != key
  }

  lemma {:induction false} DeletedAbsent(fs: seq<J.Field>, key: string)
    requires Absent(fs, key)
    ensures Deleted(fs, key) == fs
  {
    if fs != [] {
      DeletedAbsent(fs[1..], key);
      assert [fs[0]] + fs[1..] == fs;
    }
  }

  lemma {:induction false} AbsentOptional(fs: seq<J.Field>, present: bool, other: string, value: J.Value, key: string)
    requires Absent(fs, key) && other != key
    ensures Absent(fs + Optional(present, other, value), key)
  {
  }

  lemma {:induction false} HeadLacksToken(f: RawForm, tip: int)
    ensures Absent(PayloadHead(f, tip), TOKEN)
  {
    var a := [J.Field("location_id", J.Str(f.locationId)),
              J.Field("fulfillment_type", Fulfillment(f.delivery)),
              J.Field("items", J.Arr(f.items))];
    assert Absent(a, TOKEN);
    hide Absent, Optional;
    var scheduled := J.Str(Scheduled(f));
    var amount := J.Num(Decimal(if tip > 0 then tip else 0));
    var b := a + Optional(Scheduled(f) != "", "scheduled_for", scheduled);
    AbsentOptional(a, Scheduled(f) != "", "scheduled_for", scheduled, TOKEN);
    var c := b + Optional(tip > 0, "driver_tip_cents", amount);
    AbsentOptional(b, tip > 0, "driver_tip_cents", amount, TOKEN);
    var d := c + Optional(f.delivery && f.contactless != "", "contactless_pref", J.Str(f.contactless));
    AbsentOptional(c, f.delivery && f.contactless != "", "contactless_pref", J.Str(f.contactless), TOKEN);
    AbsentOptional(d, f.delivery, "address_snapshot_json", AddressValue(f.address), TOKEN);
  }

  lemma {:induction false} TailLacksToken(f: RawForm)
    ensures Absent(PayloadTail(f), TOKEN)
  {
  }

  /** The fingerprint is the text of the payload with the delivery token deleted. */
  lemma {:induction false} FingerprintDropsToken(f: RawForm, tip: int)
    ensures PayloadFields(f, tip, false) == Deleted(PayloadFields(f, tip, true), TOKEN)
  {
    hide PayloadHead, PayloadTail, Absent, Deleted, Optional;
    HeadLacksToken(f, tip);
    TailLacksToken(f);
    var head, tail := PayloadHead(f, tip), PayloadTail(f);
    var token := Optional(f.delivery, TOKEN, J.Str(f.deliveryToken));
    DeletedAbsent(head, TOKEN);
    DeletedAbsent(tail, TOKEN);
    DeletedConcat(head + token, tail, TOKEN);
    DeletedConcat(head, token, TOKEN);
    DeletedOptional(f.delivery, TOKEN, J.Str(f.deliveryToken));
    assert head + [] == head;
  }

  lemma {:induction false} DeletedOptional(present: bool, key: string, value: J.Value)
    ensures Deleted(Optional(present, key, value), key) == Optional(false, key, value) == []
  {
    if present {
      assert [J.Field(key, value)][1..] == [];
    }
  }

  lemma {:induction false} JsonConcat(a: seq<J.Field>, b: seq<J.Field>)
    requires J.Json(J.Obj(a)) && J.Json(J.Obj(b))
    ensures J.Json(J.Obj(a + b))
  {
    forall k | 0 <= k < |a + b| ensures J.Json((a + b)[k].value) {
    }
  }

  lemma {:induction false} JsonOptional(fs: seq<J.Field>, present: bool, key: string, value: J.Value)
    requires J.Json(J.Obj(fs)) && J.Json(value)
    ensures J.Json(J.Obj(fs + Optional(present, key, value)))
  {
    assert J.Json(J.Obj(Optional(present, key, value)));
    JsonConcat(fs, Optional(present, key, value));
  }

  lemma {:induction false} AmountJson(n: nat)
    ensures J.Json(J.Num(Decimal(n)))
  {
    assert forall i :: 0 <= i < |Decimal(n)| ==> J.IsNumeralChar(Decimal(n)[i]);
  }

  lemma {:induction false} HeadJson(f: Form, tip: int)
    ensures J.Json(J.Obj(PayloadHead(f, tip)))
  {
    var a := [J.Field("location_id", J.Str(f.locationId)),
              J.Field("fulfillment_type", Fulfillment(f.delivery)),
              J.Field("items", J.Arr(f.items))];
    assert J.Json(J.Obj(a)) by {
      forall k | 0 <= k < |a| ensures J.Json(a[k].value) {
      }
    }
    var amount := J.Num(Decimal(if tip > 0 then tip else 0));
    AmountJson(if tip > 0 then tip else 0);
    assert J.Json(AddressValue(f.address));
    assert J.Json(J.Str(Scheduled(f))) && J.Json(J.Str(f.contactless));
    hide J.Json, Optional;
    var b := a + Optional(Scheduled(f) != "", "scheduled_for", J.Str(Scheduled(f)));
    JsonOptional(a, Scheduled(f) != "", "scheduled_for", J.Str(Scheduled(f)));
    var c := b + Optional(tip > 0, "driver_tip_cents", amount);
    JsonOptional(b, tip > 0, "driver_tip_cents", amount);
    var d := c + Optional(f.delivery && f.contactless != "", "contactless_pref", J.Str(f.contactless));
    JsonOptional(c, f.delivery && f.contactless != "", "contactless_pref", J.Str(f.contactless));
    JsonOptional(d, f.delivery, "address_snapshot_json", AddressValue(f.address));
  }

  /** Every payload has a JSON text. */
  lemma {:induction false} PayloadJson(f: Form, tip: int)
    ensures J.Json(J.Obj(PayloadFields(f, tip, false)))
  {
    hide PayloadHead, PayloadTail;
    HeadJson(f, tip);
    TailJson(f);
    JsonConcat(PayloadHead(f, tip), PayloadTail(f));
    assert PayloadHead(f, tip) + Optional(false, TOKEN, J.Str(f.deliveryToken)) == PayloadHead(f, tip);
  }

  lemma {:induction false} TailJson(f: RawForm)
    ensures J.Json(J.Obj(PayloadTail(f)))
  {
    var fs := PayloadTail(f);
    forall k | 0 <= k < |fs| ensures J.Json(fs[k].value) {
    }
  }

  /** Two payloads have one fingerprint exactly when they agree in everything but the token. */
  lemma {:induction false} FingerprintExact(f: Form, tip: int, g: Form, other: int)
    ensures Fingerprint(f, tip) == Fingerprint(g, other)
       <==> Deleted(PayloadFields(f, tip, true), TOKEN) == Deleted(PayloadFields(g, other, true), TOKEN)
  {
    FingerprintDropsToken(f, tip);
    FingerprintDropsToken(g, other);
    hide PayloadFields, J.Stringify, J.Json;
    PayloadJson(f, tip);
    PayloadJson(g, other);
    if Fingerprint(f, tip) == Fingerprint(g, other) {
      J.StringifyInjective(J.Obj(PayloadFields(f, tip, false)), J.Obj(PayloadFields(g, other, false)));
    }
  }

  // ----- the pricing block

  /** `answers` is the request; `coupons` are the applied codes, folded. */
  datatype Quote = Quote(answers: Request, payable: int, tip: int, coupons: set<string>, rewardDeclined: bool)

  datatype Block = Wait | PricingError | RewardBlocked | CouponNotApplied

  function Upper(s: string): string {
    if s == "" then "" else [if 'a' <= s[0] <= 'z' then s[0] - 'a' + 'A' else s[0]] + Upper(s[1..])
  }

  function PricingBlock(current: bool, loading: bool, quote: Option<Quote>, error: bool, f: RawForm): Option<Block> {
    if loading || quote.None? || !current then Some(Wait)
    else if error then Some(PricingError)
    else if f.selection.applyWingsReward && quote.value.rewardDeclined then Some(RewardBlocked)
    else if Code(f) != "" && Upper(Code(f)) !in quote.value.coupons then Some(CouponNotApplied)
    else None
  }

  // ----- the screen's state

  /** One render; the flags are what the submit guards read. */
  datatype Render = Render(
    customer: string,
    form: Form,
    hydrated: bool,
    loading: bool,
    error: bool,
    deliveryReady: bool,
    estimate: bool,
    addressTyped: bool,
    signedIn: bool)

  /** A render with the quote it shows as current. */
  datatype View = View(render: Render, current: Option<Quote>)

  /** What is kept while the customer signs in, and the view it was taken from. */
  datatype Review = Review(key: string, total: int, view: nat)

  datatype Phase = Quoting | Posting | Over(succeeded: bool)

  /** One run of `placeOrder` past its guards; `review` is there when sign-in came between. */
  datatype Attempt = Attempt(view: nat, review: Option<Review>, fingerprint: string, idempotencyKey: nat, sent: nat, phase: Phase)

  /** One checkout request as it went out, and the view then on the screen. */
  datatype Post = Post(attempt: nat, number: nat, payload: string, idempotencyKey: nat, requote: Quote, onScreen: nat)

  datatype State = State(
    views: seq<View>,
    latest: string,
    quote: Option<Quote>,
    pricedKey: Option<string>,
    submitting: bool,
    pendingSubmit: bool,
    pendingReview: Option<Review>,
    attemptRef: Option<(string, nat)>,
    nextKey: nat,
    attempts: seq<Attempt>,
    posts: seq<Post>)

  /** What a server quote says, before it is tied to a request. */
  datatype Amounts = Amounts(payable: int, tip: int, coupons: set<string>, rewardDeclined: bool)

  datatype Event =
    | Rerender(render: Render)
    | PricingReply(view: nat, amounts: Option<Amounts>)
    | Press(view: nat, confirmed: bool)
    | SignedInEffect(confirmed: bool, authVisible: bool)
    | AuthClosed(completed: bool)
    | FreshReply(attempt: nat, amounts: Option<Amounts>)
    | Resend(attempt: nat)
    | PostReply(attempt: nat, created: bool)

  /** What `quoteSelection` of a render asks for. */
  function RequestOf(r: Render): Request {
    var f := r.form;
    RawRequest(r.customer, f.locationId, f.delivery, f.items, f.scheduledFor, f.tip,
               if f.delivery && r.deliveryReady then Some(f.deliveryToken) else None,
               if f.delivery then Some(f.address) else None, f.selection)
  }

  function Key(r: Render): string { KeyText(RequestOf(r)) }

  function QuoteFor(request: Request, a: Amounts): Quote {
    Quote(request, a.payable, a.tip, a.coupons, a.rewardDeclined)
  }

  /** `currentQuote`. */
  function CurrentQuote(s: State, r: Render): Option<Quote> {
    if s.pricedKey == Some(Key(r)) && r.deliveryReady && !r.loading && !r.error && !(r.form.delivery && r.estimate) && r.hydrated
    then s.quote else None
  }

  /** `pricingBlock` of a view. */
  function ViewBlock(v: View): Option<Block> {
    PricingBlock(v.current.Some? && v.render.hydrated, v.render.loading, v.current, v.render.error, v.render.form)
  }

  const INITIAL := State([], "", None, None, false, false, None, None, 0, [], [])

  /** An attempt past the guards: the lock, the payload and its idempotency key. */
  function StartAttempt(s: State, k: nat, review: Option<Review>): State
    requires k < |s.views| && s.views[k].current.Some?
  {
    var fingerprint := Fingerprint(s.views[k].render.form, s.views[k].current.value.tip);
    var reuse := s.attemptRef.Some? && s.attemptRef.value.0 == fingerprint;
    var key := if reuse then s.attemptRef.value.1 else s.nextKey;
    s.(submitting := true,
       attemptRef := Some((fingerprint, key)),
       nextKey := if reuse then s.nextKey else s.nextKey + 1,
       attempts := s.attempts + [Attempt(k, review, fingerprint, key, 0, Quoting)])
  }

  /** `placeOrder` from the closure of view k, up to its first await. */
  function PlaceOrder(s: State, k: nat, confirmed: bool, review: Option<Review>): State
    requires k < |s.views|
  {
    var v := s.views[k];
    var r := v.render;
    if r.form.items == [] || s.submitting then s
    else if !confirmed then s.(pendingSubmit := false)
    else if ViewBlock(v).Some? then s
    else if r.form.delivery && (!r.addressTyped || !r.deliveryReady || v.current.None?) then s
    else if !r.signedIn then s.(pendingSubmit := true, pendingReview := Some(Review(ReviewKey(r.form), v.current.value.payable, k)))
    else StartAttempt(s, k, review)
  }

  /** The effect that submits once the customer has signed in. */
  function AfterSignIn(s: State, confirmed: bool, authVisible: bool): State
    requires s.views != []
  {
    var k := |s.views| - 1;
    var v := s.views[k];
    if !s.pendingSubmit || authVisible || !v.render.signedIn || v.current.None? || ViewBlock(v).Some? || !confirmed then s
    else
      var t := s.(pendingSubmit := false);
      if s.pendingReview.None? || s.pendingReview.value.key != ReviewKey(v.render.form)
         || s.pendingReview.value.total != v.current.value.payable then t
      else PlaceOrder(t, k, confirmed, s.pendingReview)
  }

  function Ended(s: State, a: nat, succeeded: bool): State
    requires a < |s.attempts|
  {
    s.(submitting := false, attempts := s.attempts[a := s.attempts[a].(phase := Over(succeeded))])
  }

  function Sent(s: State, a: nat, requote: Quote): State
    requires a < |s.attempts| && s.attempts[a].view < |s.views| && s.views[s.attempts[a].view].current.Some?
  {
    var x := s.attempts[a];
    var v := s.views[x.view];
    s.(attempts := s.attempts[a := x.(sent := x.sent + 1, phase := Posting)],
       posts := s.posts + [Post(a, x.sent, PayloadText(v.render.form, v.current.value.tip), x.idempotencyKey, requote, |s.views| - 1)])
  }

  /** `placeOrder` from the fresh quote up to the request. */
  function FreshQuoted(s: State, a: nat, amounts: Option<Amounts>): State
    requires a < |s.attempts| && s.attempts[a].view < |s.views| && s.views[s.attempts[a].view].current.Some?
  {
    var v := s.views[s.attempts[a].view];
    var shown := v.current.value;
    if amounts.None? || s.latest != Key(v.render) then Ended(s, a, false)
    else
      var requote := QuoteFor(RequestOf(v.render), amounts.value);
      if PricingBlock(true, false, Some(requote), false, v.render.form).Some? || requote.payable != shown.payable || requote.tip != shown.tip
      then Ended(s, a, false).(quote := Some(requote), pricedKey := Some(Key(v.render)))
      else Sent(s, a, requote)
  }

  predicate Running(s: State, a: nat, phase: Phase) {
    a < |s.attempts| && s.attempts[a].phase == phase && s.attempts[a].view < |s.views|
    && s.views[s.attempts[a].view].current.Some?
  }

  function Apply(s: State, e: Event): State {
    match e
    case Rerender(r) => s.(views := s.views + [View(r, CurrentQuote(s, r))], latest := Key(r))
    case PricingReply(k, amounts) =>
      if amounts.None? then s.(quote := None)
      else if k >= |s.views| || s.latest != Key(s.views[k].render) then s
      else s.(quote := Some(QuoteFor(RequestOf(s.views[k].render), amounts.value)), pricedKey := Some(s.latest))
    case Press(k, confirmed) => if k < |s.views| then PlaceOrder(s, k, confirmed, None) else s
    case SignedInEffect(confirmed, authVisible) => if s.views != [] then AfterSignIn(s, confirmed, authVisible) else s
    case AuthClosed(completed) => if completed then s else s.(pendingSubmit := false)
    case FreshReply(a, amounts) => if Running(s, a, Quoting) then FreshQuoted(s, a, amounts) else s
    case Resend(a) =>
      if Running(s, a, Posting) && s.attempts[a].sent == 1 && s.posts != [] then Sent(s, a, s.posts[|s.posts| - 1].requote) else s
    case PostReply(a, created) =>
      if Running(s, a, Posting) then Ended(s, a, created).(attemptRef := if created then None else s.attemptRef) else s
  }

  function Run(events: seq<Event>): State {
    if events == [] then INITIAL else Apply(Run(events[..|events| - 1]), events[|events| - 1])
  }
}
