/** What every run of the checkout screen keeps (apps/application/app/checkout.tsx): which total an
    order is placed at, which attempts overlap and which share an idempotency key. */
module CheckoutTheorems {
  import opened Strings
  import opened Checkout
  import J = JsonText

  // ----- what every event keeps

  predicate QuotesFiled(s: State) {
    && (s.views != [] ==> s.latest == Key(s.views[|s.views| - 1].render))
    && (s.quote.Some? ==> s.pricedKey == Some(KeyText(s.quote.value.answers)))
    && forall k :: 0 <= k < |s.views| ==> ViewSound(s.views[k])
  }

  /** The quote a view shows as current answers that view's own request, delivery token included. */
  predicate ViewSound(v: View) {
    v.current.Some? ==> v.current.value.answers == RequestOf(v.render) && (v.render.form.delivery ==> v.render.deliveryReady)
  }

  /** `review` was taken from a view that showed its total, and is keyed by that view's form. */
  predicate ReviewSound(views: seq<View>, review: Option<Review>) {
    review.Some? ==>
      && review.value.view < |views|
      && views[review.value.view].current.Some?
      && review.value.key == ReviewKey(views[review.value.view].render.form)
      && review.value.total == views[review.value.view].current.value.payable
  }

  /** The order of view k is the one reviewed, at the total reviewed. */
  predicate AsReviewed(views: seq<View>, k: nat, review: Option<Review>) {
    review.Some? ==>
      && ReviewSound(views, review)
      && k < |views| && views[k].current.Some?
      && SameReview(views[review.value.view].render.form, views[k].render.form)
      && review.value.total == views[k].current.value.payable
  }

  /** An attempt comes from a view whose quote showed no block, and posts that view's form. */
  predicate AttemptSound(views: seq<View>, x: Attempt) {
    && x.view < |views|
    && views[x.view].current.Some?
    && ViewBlock(views[x.view]).None?
    && x.fingerprint == Fingerprint(views[x.view].render.form, views[x.view].current.value.tip)
    && AsReviewed(views, x.view, x.review)
    && x.sent <= 2
    && (x.phase.Quoting? ==> x.sent == 0)
    && (x.phase.Posting? ==> x.sent >= 1)
  }

  predicate Active(x: Attempt) { !x.phase.Over? }

  predicate AttemptsSound(s: State) {
    && (forall a :: 0 <= a < |s.attempts| ==> AttemptSound(s.views, s.attempts[a]))
    && (forall a :: 0 <= a < |s.attempts| - 1 ==> s.attempts[a].phase.Over?)
    && (s.submitting <==> s.attempts != [] && Active(s.attempts[|s.attempts| - 1]))
  }

  /** The reference holds the latest attempt's fingerprint and key until that attempt succeeds. */
  predicate ReferenceSound(s: State) {
    s.attemptRef ==
    if s.attempts == [] then None
    else
      var x := s.attempts[|s.attempts| - 1];
      if x.phase == Over(true) then None else Some((x.fingerprint, x.idempotencyKey))
  }

  /** Attempts i and j, and all between, post one logical payload, and none before j succeeded. */
  predicate SameOrder(attempts: seq<Attempt>, i: nat, j: nat) {
    j < |attempts| && forall m :: i <= m < j ==> attempts[m].fingerprint == attempts[j].fingerprint && attempts[m].phase != Over(true)
  }

  predicate KeysSound(s: State) {
    && (forall a :: 0 <= a < |s.attempts| ==> s.attempts[a].idempotencyKey < s.nextKey)
    && forall i, j :: 0 <= i < j < |s.attempts| ==>
         (s.attempts[i].idempotencyKey == s.attempts[j].idempotencyKey <==> SameOrder(s.attempts, i, j))
  }

  /** What was true when a request went out. */
  predicate PostSound(views: seq<View>, attempts: seq<Attempt>, p: Post) {
    && p.attempt < |attempts|
    && p.number < attempts[p.attempt].sent
    && p.idempotencyKey == attempts[p.attempt].idempotencyKey
    && attempts[p.attempt].view < |views|
    && var v := views[attempts[p.attempt].view];
    && v.current.Some?
    && p.payload == PayloadText(v.render.form, p.requote.tip)
    && p.requote.answers == RequestOf(v.render)
    && p.requote.payable == v.current.value.payable
    && p.requote.tip == v.current.value.tip
    && PricingBlock(true, false, Some(p.requote), false, v.render.form).None?
    && p.onScreen < |views|
    && (p.number == 0 ==> RequestOf(views[p.onScreen].render) == RequestOf(v.render))
  }

  /** Requests of one attempt are numbered and follow one and the same quote. */
  predicate PostOrder(posts: seq<Post>) {
    forall i, j :: 0 <= i < j < |posts| ==>
      || posts[i].attempt < posts[j].attempt
      || (posts[i].attempt == posts[j].attempt && posts[i].number < posts[j].number && posts[i].requote == posts[j].requote)
  }

  predicate PostsSound(s: State) {
    && (forall i :: 0 <= i < |s.posts| ==> PostSound(s.views, s.attempts, s.posts[i]))
    && PostOrder(s.posts)
    && (s.attempts != [] && s.attempts[|s.attempts| - 1].phase.Posting? ==>
          s.posts != [] && s.posts[|s.posts| - 1].attempt == |s.attempts| - 1)
  }

  predicate Invariant(s: State) {
    QuotesFiled(s) && ReviewSound(s.views, s.pendingReview) && AttemptsSound(s) && ReferenceSound(s) && KeysSound(s) && PostsSound(s)
  }

  lemma {:induction false} EarlierOrder(attempts: seq<Attempt>, x: Attempt, i: nat, j: nat)
    requires j < |attempts|
    ensures SameOrder(attempts + [x], i, j) <==> SameOrder(attempts, i, j)
  {
    var all := attempts + [x];
    assert forall m :: 0 <= m < |attempts| ==> all[m] == attempts[m];
  }

  lemma {:induction false} NewestOrder(attempts: seq<Attempt>, x: Attempt)
    requires attempts != []
    ensures var n := |attempts|;
            SameOrder(attempts + [x], n - 1, n) <==> attempts[n - 1].fingerprint == x.fingerprint && attempts[n - 1].phase != Over(true)
  {
    var all := attempts + [x];
    assert all[|attempts| - 1] == attempts[|attempts| - 1] && all[|attempts|] == x;
  }

  lemma {:induction false} NewAttemptKeys(s: State, x: Attempt)
    requires KeysSound(s) && ReferenceSound(s)
    requires x.idempotencyKey ==
             if s.attemptRef.Some? && s.attemptRef.value.0 == x.fingerprint then s.attemptRef.value.1 else s.nextKey
    ensures var all := s.attempts + [x];
            forall i, j :: 0 <= i < j < |all| ==> (all[i].idempotencyKey == all[j].idempotencyKey <==> SameOrder(all, i, j))
  {
    hide SameOrder;
    var n := |s.attempts|;
    var all := s.attempts + [x];
    forall i, j | 0 <= i < j < |all|
      ensures all[i].idempotencyKey == all[j].idempotencyKey <==> SameOrder(all, i, j)
    {
      if j < n {
        EarlierOrder(s.attempts, x, i, j);
      } else if i < n - 1 {
        LongerOrder(s.attempts, x, i);
      } else {
        NewestOrder(s.attempts, x);
      }
    }
  }

  lemma {:induction false} LongerOrder(attempts: seq<Attempt>, x: Attempt, i: nat)
    requires i < |attempts| - 1
    ensures var n := |attempts|;
            SameOrder(attempts + [x], i, n) <==>
            SameOrder(attempts, i, n - 1) && attempts[n - 1].fingerprint == x.fingerprint && attempts[n - 1].phase != Over(true)
  {
    var n := |attempts|;
    var all := attempts + [x];
    assert forall m :: 0 <= m < n ==> all[m] == attempts[m];
    if SameOrder(all, i, n) {
      assert all[n - 1].fingerprint == x.fingerprint;
    }
  }

  lemma {:induction false} PostStays(views: seq<View>, attempts: seq<Attempt>, views': seq<View>, attempts': seq<Attempt>, p: Post)
    requires PostSound(views, attempts, p) && views <= views' && p.attempt < |attempts'|
    requires attempts'[p.attempt].view == attempts[p.attempt].view && attempts[p.attempt].sent <= attempts'[p.attempt].sent
    requires attempts'[p.attempt].idempotencyKey == attempts[p.attempt].idempotencyKey
    ensures PostSound(views', attempts', p)
  {
    hide PayloadText, PricingBlock;
  }

  lemma {:induction false} PostsStay(s: State, t: State)
    requires forall i :: 0 <= i < |s.posts| ==> PostSound(s.views, s.attempts, s.posts[i])
    requires s.views <= t.views && |s.attempts| <= |t.attempts|
    requires forall a :: 0 <= a < |s.attempts| ==>
               t.attempts[a].view == s.attempts[a].view && s.attempts[a].sent <= t.attempts[a].sent
               && t.attempts[a].idempotencyKey == s.attempts[a].idempotencyKey
    ensures forall i :: 0 <= i < |s.posts| ==> PostSound(t.views, t.attempts, s.posts[i])
  {
    forall i | 0 <= i < |s.posts| ensures PostSound(t.views, t.attempts, s.posts[i]) {
      assert PostSound(s.views, s.attempts, s.posts[i]);
      var p := s.posts[i];
      assert p.attempt < |s.attempts| by { hide PayloadText, PricingBlock; }
      hide PostSound;
      PostStays(s.views, s.attempts, t.views, t.attempts, p);
    }
  }

  lemma {:induction false} StartKeeps(s: State, k: nat, review: Option<Review>)
    requires Invariant(s) && k < |s.views| && s.views[k].current.Some? && ViewBlock(s.views[k]).None? && !s.submitting
    requires AsReviewed(s.views, k, review)
    ensures Invariant(StartAttempt(s, k, review))
  {
    hide Fingerprint, PayloadText, SameOrder, ViewBlock, PricingBlock, PostSound, ViewSound, AsReviewed, ReviewSound, KeyText, RequestOf;
    var t := StartAttempt(s, k, review);
    var n := |s.attempts|;
    SameQuotes(s, t);
    hide QuotesFiled;
    PostsStay(s, t);
    assert forall a :: 0 <= a < n ==> t.attempts[a] == s.attempts[a];
    assert KeysSound(t) by { NewAttemptKeys(s, t.attempts[n]); }
    hide KeysSound;
    assert AttemptSound(t.views, t.attempts[n]);
    assert n > 0 ==> !Active(s.attempts[n - 1]);
  }

  lemma {:induction false} PlaceKeeps(s: State, k: nat, confirmed: bool, review: Option<Review>)
    requires Invariant(s) && k < |s.views|
    requires AsReviewed(s.views, k, review)
    ensures Invariant(PlaceOrder(s, k, confirmed, review))
  {
    UnblockedShowsQuote(s.views[k]);
    hide KeyText, RequestOf, ReviewKey, ViewBlock, StartAttempt, AsReviewed, KeysSound, PostsSound, AttemptsSound, ReferenceSound;
    var t := PlaceOrder(s, k, confirmed, review);
    var flagged := s.(pendingSubmit := t.pendingSubmit, pendingReview := t.pendingReview);
    SameQuotes(s, flagged);
    hide QuotesFiled;
    AsideKeeps(s, flagged);
    if !s.submitting && s.views[k].current.Some? && ViewBlock(s.views[k]).None? {
      StartKeeps(s, k, review);
    }
  }

  lemma {:induction false} UnblockedShowsQuote(v: View)
    ensures ViewBlock(v).None? ==> v.current.Some?
  {
  }

  lemma {:induction false} SameQuotes(s: State, t: State)
    requires QuotesFiled(s) && t.views == s.views && t.latest == s.latest && t.quote == s.quote && t.pricedKey == s.pricedKey
    ensures QuotesFiled(t)
  {
    hide ViewSound, Key, KeyText;
  }

  /** Only the latest attempt is under way. */
  lemma {:induction false} RunningIsLast(s: State, a: nat)
    requires AttemptsSound(s) && a < |s.attempts| && Active(s.attempts[a])
    ensures a == |s.attempts| - 1
  {
  }

  /** A change to the latest attempt's progress leaves every key comparison as it was. */
  lemma {:induction false} KeysStay(s: State, t: State)
    requires KeysSound(s) && |t.attempts| == |s.attempts| && t.nextKey == s.nextKey
    requires forall a :: 0 <= a < |s.attempts| ==>
               t.attempts[a].idempotencyKey == s.attempts[a].idempotencyKey && t.attempts[a].fingerprint == s.attempts[a].fingerprint
    requires forall a :: 0 <= a < |s.attempts| - 1 ==> t.attempts[a] == s.attempts[a]
    ensures KeysSound(t)
  {
    forall i, j | 0 <= i < j < |s.attempts| ensures SameOrder(t.attempts, i, j) <==> SameOrder(s.attempts, i, j) {
    }
    hide SameOrder;
  }

  lemma {:induction false} EndedKeeps(s: State, a: nat, succeeded: bool)
    requires Invariant(s) && a < |s.attempts| && Active(s.attempts[a])
    ensures Invariant(Ended(s, a, succeeded).(attemptRef := if succeeded then None else s.attemptRef))
  {
    hide Fingerprint, PayloadText, SameOrder, ViewBlock, PricingBlock, PostSound, ViewSound, ReviewSound, AsReviewed, KeyText, RequestOf;
    RunningIsLast(s, a);
    var t := Ended(s, a, succeeded).(attemptRef := if succeeded then None else s.attemptRef);
    SameQuotes(s, t);
    hide QuotesFiled;
    KeysStay(s, t);
    PostsStay(s, t);
    hide KeysSound;
  }

  lemma {:induction false} SentPost(s: State, a: nat, requote: Quote)
    requires AttemptsSound(s) && QuotesFiled(s) && a < |s.attempts| && Running(s, a, s.attempts[a].phase)
    requires var v := s.views[s.attempts[a].view];
             requote.answers == RequestOf(v.render) && requote.payable == v.current.value.payable && requote.tip == v.current.value.tip
             && PricingBlock(true, false, Some(requote), false, v.render.form).None?
    requires s.attempts[a].sent == 0 ==> s.latest == KeyText(requote.answers)
    ensures var t := Sent(s, a, requote); PostSound(t.views, t.attempts, t.posts[|s.posts|])
  {
    hide PayloadText, PricingBlock, KeyText, RequestOf;
    KeyExact(RequestOf(s.views[|s.views| - 1].render), requote.answers);
  }

  lemma {:induction false} SentOrder(s: State, a: nat, requote: Quote)
    requires PostsSound(s) && a == |s.attempts| - 1
    requires Running(s, a, s.attempts[a].phase)
    requires s.attempts[a].sent > 0 ==>
               s.attempts[a].phase.Posting? && s.posts != [] && requote == s.posts[|s.posts| - 1].requote
    ensures PostOrder(Sent(s, a, requote).posts)
  {
    hide PayloadText, PricingBlock, KeyText, RequestOf;
    var n := |s.posts|;
    var p := Sent(s, a, requote).posts[n];
    forall i | 0 <= i < n
      ensures s.posts[i].attempt < a || (s.posts[i].attempt == a && s.posts[i].number < p.number && s.posts[i].requote == requote)
    {
      assert PostSound(s.views, s.attempts, s.posts[i]);
      assert s.attempts[a].sent == 0 ==> s.posts[i].attempt != a;
      assert i < n - 1 ==> s.posts[i].attempt < s.posts[n - 1].attempt || s.posts[i].requote == s.posts[n - 1].requote;
    }
  }

  lemma {:induction false} SentKeeps(s: State, a: nat, requote: Quote)
    requires Invariant(s) && a < |s.attempts| && Active(s.attempts[a]) && Running(s, a, s.attempts[a].phase)
    requires var v := s.views[s.attempts[a].view];
             requote.answers == RequestOf(v.render) && requote.payable == v.current.value.payable && requote.tip == v.current.value.tip
             && PricingBlock(true, false, Some(requote), false, v.render.form).None?
    requires s.attempts[a].sent == 0 ==> s.latest == KeyText(requote.answers)
    requires s.attempts[a].sent > 0 ==>
               s.attempts[a].phase.Posting? && s.attempts[a].sent == 1 && s.posts != [] && requote == s.posts[|s.posts| - 1].requote
    ensures Invariant(Sent(s, a, requote))
  {
    hide Fingerprint, PayloadText, SameOrder, ViewBlock, PricingBlock, ViewSound, ReviewSound, AsReviewed, KeyText, RequestOf;
    RunningIsLast(s, a);
    var t := Sent(s, a, requote);
    SentPost(s, a, requote);
    hide PostSound;
    KeysStay(s, t);
    PostsStay(s, t);
    hide KeysSound;
    assert PostOrder(t.posts) by { SentOrder(s, a, requote); }
  }

  lemma {:induction false} FreshReplyKeeps(s: State, a: nat, amounts: Option<Amounts>)
    requires Invariant(s) && Running(s, a, Quoting)
    ensures Invariant(FreshQuoted(s, a, amounts))
  {
    hide KeysSound, PostsSound, ReferenceSound, PricingBlock, ViewBlock, PayloadText, Fingerprint, ReviewSound, KeyText, RequestOf;
    var v := s.views[s.attempts[a].view];
    var t := FreshQuoted(s, a, amounts);
    if t.posts == s.posts {
      EndedKeeps(s, a, false);
      EndedSame(s, a, t);
    } else {
      SentKeeps(s, a, QuoteFor(RequestOf(v.render), amounts.value));
    }
  }

  /** Storing another quote, filed under its key, keeps the rest. */
  lemma {:induction false} EndedSame(s: State, a: nat, t: State)
    requires a < |s.attempts| && Invariant(Ended(s, a, false)) && QuotesFiled(t)
    requires t == Ended(s, a, false).(quote := t.quote, pricedKey := t.pricedKey)
    ensures Invariant(t)
  {
    hide KeysSound, AttemptsSound;
    var u := Ended(s, a, false);
    assert AttemptsSound(t) by { SameAttempts(u, t); }
    assert KeysSound(t) by { SameKeys(u, t); }
  }

  lemma {:induction false} SameAttempts(u: State, t: State)
    requires AttemptsSound(u) && t.views == u.views && t.attempts == u.attempts && t.submitting == u.submitting
    ensures AttemptsSound(t)
  {
    hide AttemptSound;
  }

  lemma {:induction false} SameKeys(u: State, t: State)
    requires KeysSound(u) && t.attempts == u.attempts && t.nextKey == u.nextKey
    ensures KeysSound(t)
  {
    hide SameOrder;
  }

  lemma {:induction false} ResendKeeps(s: State, a: nat)
    requires Invariant(s) && Running(s, a, Posting) && s.attempts[a].sent == 1 && s.posts != []
    ensures Invariant(Sent(s, a, s.posts[|s.posts| - 1].requote))
  {
    RunningIsLast(s, a);
    var p := s.posts[|s.posts| - 1];
    assert PostSound(s.views, s.attempts, p);
    assert p.attempt == a;
    hide *;
    SentKeeps(s, a, p.requote);
  }

  lemma {:induction false} AttemptsStay(s: State, t: State)
    requires AttemptsSound(s) && s.views <= t.views && t.attempts == s.attempts && t.submitting == s.submitting
    ensures AttemptsSound(t)
  {
    hide Fingerprint, PricingBlock, ViewBlock;
    forall a | 0 <= a < |s.attempts| ensures AttemptSound(t.views, t.attempts[a]) {
      assert AttemptSound(s.views, s.attempts[a]);
    }
  }

  lemma {:induction false} RerenderKeeps(s: State, r: Render)
    requires Invariant(s)
    ensures Invariant(Apply(s, Rerender(r)))
  {
    hide SameOrder, PostSound, Fingerprint, KeyText, RequestOf;
    var t := Apply(s, Rerender(r));
    SameKeys(s, t);
    AttemptsStay(s, t);
    PostsStay(s, t);
    hide KeysSound, AttemptsSound;
    if s.quote.Some? {
      KeyExact(s.quote.value.answers, RequestOf(r));
    }
    assert ViewSound(t.views[|s.views|]);
  }

  /** A step that only files another quote or sets the sign-in flags. */
  lemma {:induction false} AsideKeeps(s: State, t: State)
    requires Invariant(s) && QuotesFiled(t) && ReviewSound(t.views, t.pendingReview)
    requires t == s.(quote := t.quote, pricedKey := t.pricedKey, pendingSubmit := t.pendingSubmit, pendingReview := t.pendingReview)
    ensures Invariant(t)
  {
    hide SameOrder, PostSound, AttemptSound, QuotesFiled;
    SameKeys(s, t);
    hide KeysSound;
  }

  lemma {:induction false} PricingReplyKeeps(s: State, k: nat, amounts: Option<Amounts>)
    requires Invariant(s)
    ensures Invariant(Apply(s, PricingReply(k, amounts)))
  {
    hide KeysSound, PostsSound, AttemptsSound, ReferenceSound, ViewSound, ReviewSound, KeyText, RequestOf;
    AsideKeeps(s, Apply(s, PricingReply(k, amounts)));
  }

  lemma {:induction false} AuthClosedKeeps(s: State, completed: bool)
    requires Invariant(s)
    ensures Invariant(Apply(s, AuthClosed(completed)))
  {
    hide KeysSound, PostsSound, AttemptsSound, ReferenceSound, ViewSound, ReviewSound, KeyText, RequestOf;
    AsideKeeps(s, Apply(s, AuthClosed(completed)));
  }

  lemma {:induction false} SignInKeeps(s: State, confirmed: bool, authVisible: bool)
    requires Invariant(s) && s.views != []
    ensures Invariant(AfterSignIn(s, confirmed, authVisible))
  {
    var t := s.(pendingSubmit := false);
    assert QuotesFiled(t);
    hide KeysSound, PostsSound, AttemptsSound, ReferenceSound, QuotesFiled;
    AsideKeeps(s, t);
    var v := s.views[|s.views| - 1];
    if v.current.Some? && s.pendingReview.Some? && s.pendingReview.value.key == ReviewKey(v.render.form)
       && s.pendingReview.value.total == v.current.value.payable {
      ReviewExact(s.views[s.pendingReview.value.view].render.form, v.render.form);
      PlaceKeeps(t, |s.views| - 1, confirmed, s.pendingReview);
    }
  }

  lemma {:induction false} StepKeeps(s: State, e: Event)
    requires Invariant(s)
    ensures Invariant(Apply(s, e))
  {
    hide Invariant, KeyText, RequestOf, CurrentQuote, PlaceOrder, AfterSignIn, FreshQuoted, Sent, Ended;
    match e
    case Rerender(r) => RerenderKeeps(s, r);
    case PricingReply(k, amounts) => PricingReplyKeeps(s, k, amounts);
    case Press(k, confirmed) => if k < |s.views| { PlaceKeeps(s, k, confirmed, None); }
    case SignedInEffect(confirmed, authVisible) => if s.views != [] { SignInKeeps(s, confirmed, authVisible); }
    case AuthClosed(completed) => AuthClosedKeeps(s, completed);
    case FreshReply(a, amounts) => if Running(s, a, Quoting) { FreshReplyKeeps(s, a, amounts); }
    case Resend(a) => if Running(s, a, Posting) && s.attempts[a].sent == 1 && s.posts != [] { ResendKeeps(s, a); }
    case PostReply(a, created) => if Running(s, a, Posting) { EndedKeeps(s, a, created); EndedReference(s, a, created); }
  }

  lemma {:induction false} EndedReference(s: State, a: nat, succeeded: bool)
    requires a < |s.attempts|
    ensures Ended(s, a, succeeded).attemptRef == s.attemptRef
  {
  }

  lemma {:induction false} RunKeeps(events: seq<Event>)
    ensures Invariant(Run(events))
  {
    if events != [] {
      hide Invariant, Apply;
      RunKeeps(events[..|events| - 1]);
      StepKeeps(Run(events[..|events| - 1]), events[|events| - 1]);
    }
  }

  // ----- what single states say

  lemma {:induction false} ShownAnswers(s: State)
    requires Invariant(s)
    ensures forall k :: 0 <= k < |s.views| ==> ViewSound(s.views[k])
  {
    hide ViewSound;
  }

  /** A review that passes the comparison is of the latest view's own order and total. */
  lemma {:induction false} PendingAsReviewed(s: State)
    requires Invariant(s) && s.views != []
    ensures var v := s.views[|s.views| - 1];
            v.current.Some? && s.pendingReview.Some? && s.pendingReview.value.key == ReviewKey(v.render.form)
            && s.pendingReview.value.total == v.current.value.payable ==>
              AsReviewed(s.views, |s.views| - 1, s.pendingReview)
  {
    hide KeysSound, PostsSound, AttemptsSound, ReferenceSound, QuotesFiled, ReviewKey, SameReview;
    if s.pendingReview.Some? {
      ReviewExact(s.views[s.pendingReview.value.view].render.form, s.views[|s.views| - 1].render.form);
    }
  }

  /** From s to t one request went out, for what the customer was shown, or the lock came free. */
  predicate PostsOrStops(s: State, t: State) {
    if t.posts == s.posts then !t.submitting
    else |t.posts| == |s.posts| + 1 && t.posts[..|s.posts|] == s.posts && PostSound(t.views, t.attempts, t.posts[|s.posts|])
  }

  lemma {:induction false} FreshReplyPosts(s: State, a: nat, amounts: Option<Amounts>)
    requires Invariant(s) && Running(s, a, Quoting)
    ensures PostsOrStops(s, FreshQuoted(s, a, amounts))
  {
    hide Invariant, PostSound, PricingBlock, PayloadText, KeyText, RequestOf;
    FreshReplyKeeps(s, a, amounts);
    PostsAreSound(FreshQuoted(s, a, amounts));
  }

  lemma {:induction false} PostsAreSound(s: State)
    requires Invariant(s)
    ensures forall i :: 0 <= i < |s.posts| ==> PostSound(s.views, s.attempts, s.posts[i])
  {
    hide PostSound, KeysSound, ReferenceSound, AttemptsSound, QuotesFiled;
  }

  /** If an attempt starts between s and t, it is from view k, confirmed, signed in and without block. */
  predicate StartsOnlyConfirmed(s: State, t: State, k: nat, confirmed: bool) {
    |t.attempts| > |s.attempts| ==>
      && t.submitting && !s.submitting && confirmed
      && t.attempts[|s.attempts|].view == k < |t.views|
      && t.views[k].render.signedIn && ViewBlock(t.views[k]).None?
  }

  lemma {:induction false} PlaceStarts(s: State, k: nat, confirmed: bool, review: Option<Review>)
    requires k < |s.views|
    ensures StartsOnlyConfirmed(s, PlaceOrder(s, k, confirmed, review), k, confirmed)
  {
    UnblockedShowsQuote(s.views[k]);
    hide ViewBlock, Fingerprint, ReviewKey;
  }

  /** If an attempt starts between s and t, it is the one reviewed before. */
  predicate SubmitsOnlyReviewed(s: State, t: State) {
    |t.attempts| > |s.attempts| ==>
      && var x := t.attempts[|s.attempts|];
      && x.review.Some? && x.review == s.pendingReview && AsReviewed(t.views, x.view, x.review)
  }

  lemma {:induction false} SignInSubmits(s: State, confirmed: bool, authVisible: bool)
    requires Invariant(s) && s.views != []
    ensures SubmitsOnlyReviewed(s, AfterSignIn(s, confirmed, authVisible))
  {
    PendingAsReviewed(s);
    hide Invariant, AsReviewed, KeyText, RequestOf, ViewBlock, Fingerprint, ReviewKey;
  }

  /** While a request is out, the latest post is its attempt's. */
  lemma {:induction false} PostingHasPosted(s: State, a: nat)
    requires Invariant(s) && Running(s, a, Posting)
    ensures s.posts != []
    ensures var p := s.posts[|s.posts| - 1];
            p.attempt == a && p.idempotencyKey == s.attempts[a].idempotencyKey
            && p.payload == PayloadText(s.views[s.attempts[a].view].render.form, s.views[s.attempts[a].view].current.value.tip)
  {
    hide PayloadText, PricingBlock, KeysSound, ReferenceSound, QuotesFiled, ReviewSound;
    RunningIsLast(s, a);
    assert PostSound(s.views, s.attempts, s.posts[|s.posts| - 1]);
  }

  predicate NoneActive(s: State) {
    forall a :: 0 <= a < |s.attempts| ==> !Active(s.attempts[a])
  }

  lemma {:induction false} UnlockedNoneActive(s: State)
    requires Invariant(s) && !s.submitting
    ensures NoneActive(s)
  {
    hide AttemptSound, KeysSound, PostsSound, ReferenceSound, QuotesFiled, ReviewSound;
  }

  // ----- the main results

  /** The request asks for what the form posts: its order, address, delivery token, tip choice and promotion. */
  predicate Prices(a: Request, f: RawForm) {
    && a.locationId == f.locationId && a.items == f.items && a.delivery == f.delivery && a.scheduledFor == f.scheduledFor
    && a.tip == f.tip && a.selection == f.selection
    && (if f.delivery then a.address == Some(f.address) && a.token == Some(f.deliveryToken) else a.address.None? && a.token.None?)
  }

  /** Every checkout request posts the form of the view the customer ordered from, with the tip of a
      fresh quote that raised no block and has the total and the tip that view showed. Both quotes
      are for that very form and customer; and when the first request of an attempt leaves, the form
      then on the screen is still the same as far as it is priced. */
  lemma {:induction false} PostsFollowConfirmedTotal(events: seq<Event>, i: nat)
    requires i < |Run(events).posts|
    ensures var s := Run(events);
            var p := s.posts[i];
            && p.attempt < |s.attempts| && s.attempts[p.attempt].view < |s.views| && p.onScreen < |s.views|
            && var v := s.views[s.attempts[p.attempt].view];
            && p.payload == PayloadText(v.render.form, p.requote.tip)
            && v.current.Some? && ViewBlock(v).None?
            && PricingBlock(true, false, Some(p.requote), false, v.render.form).None?
            && p.requote.payable == v.current.value.payable && p.requote.tip == v.current.value.tip
            && p.requote.answers == v.current.value.answers
            && p.requote.answers.customer == v.render.customer && Prices(p.requote.answers, v.render.form)
            && (p.number == 0 ==>
                  && p.requote.answers.customer == s.views[p.onScreen].render.customer
                  && Prices(p.requote.answers, s.views[p.onScreen].render.form))
  {
    RunKeeps(events);
    hide Run, Fingerprint, PayloadText, PricingBlock, ViewBlock, KeysSound, ReferenceSound;
    var s := Run(events);
    assert PostSound(s.views, s.attempts, s.posts[i]);
    assert AttemptSound(s.views, s.attempts[s.posts[i].attempt]);
  }

  /** An order placed by signing in is the order that was reviewed before, in every detail, at the
      total that was shown then. */
  lemma {:induction false} SignInKeepsReviewedTotal(events: seq<Event>, a: nat)
    requires a < |Run(events).attempts| && Run(events).attempts[a].review.Some?
    ensures var s := Run(events);
            var reviewed := s.attempts[a].review.value.view;
            && s.attempts[a].view < |s.views| && reviewed < |s.views|
            && var v, w := s.views[reviewed], s.views[s.attempts[a].view];
            && v.current.Some? && w.current.Some?
            && v.current.value.payable == w.current.value.payable
            && SameReview(v.render.form, w.render.form)
  {
    RunKeeps(events);
    assert AttemptSound(Run(events).views, Run(events).attempts[a]);
  }

  lemma {:induction false} ActiveIsLast(s: State, a: nat)
    requires Invariant(s) && a < |s.attempts| && Active(s.attempts[a])
    ensures a == |s.attempts| - 1 && s.submitting
  {
    hide AttemptSound, KeysSound, PostsSound, ReferenceSound, QuotesFiled, ReviewSound;
  }

  /** Attempts never overlap: at most the latest is under way, and exactly then the lock is held. */
  lemma {:induction false} AttemptsNeverOverlap(events: seq<Event>, a: nat, b: nat)
    requires a < |Run(events).attempts| && b < |Run(events).attempts|
    requires Active(Run(events).attempts[a]) && Active(Run(events).attempts[b])
    ensures a == b && Run(events).submitting
  {
    RunKeeps(events);
    hide Run;
    ActiveIsLast(Run(events), a);
    ActiveIsLast(Run(events), b);
  }

  /** Requests of one attempt carry the same payload and idempotency key, and there are at most two. */
  lemma {:induction false} RetryResendsTheSame(events: seq<Event>, i: nat, j: nat)
    requires i < j < |Run(events).posts| && Run(events).posts[i].attempt == Run(events).posts[j].attempt
    ensures var p, q := Run(events).posts[i], Run(events).posts[j];
            p.payload == q.payload && p.idempotencyKey == q.idempotencyKey && p.number == 0 && q.number == 1
  {
    RunKeeps(events);
    hide Run, PayloadText, PricingBlock, KeysSound, ReferenceSound, ViewBlock, Fingerprint;
    var s := Run(events);
    assert PostSound(s.views, s.attempts, s.posts[i]) && PostSound(s.views, s.attempts, s.posts[j]);
    assert AttemptSound(s.views, s.attempts[s.posts[i].attempt]);
  }

  /** Two attempts share an idempotency key exactly when they, and all attempts between, post the
      same logical payload and none before the later one had already created the order. */
  lemma {:induction false} KeySharedExactly(events: seq<Event>, i: nat, j: nat)
    requires i < j < |Run(events).attempts|
    ensures var xs := Run(events).attempts;
            xs[i].idempotencyKey == xs[j].idempotencyKey
            <==> forall m :: i <= m < j ==> xs[m].fingerprint == xs[j].fingerprint && xs[m].phase != Over(true)
  {
    RunKeeps(events);
    hide Run;
    var xs := Run(events).attempts;
    assert SameOrder(xs, i, j) <==> forall m :: i <= m < j ==> xs[m].fingerprint == xs[j].fingerprint && xs[m].phase != Over(true);
  }

  predicate HasPayload(s: State, a: nat) {
    a < |s.attempts| && s.attempts[a].view < |s.views| && s.views[s.attempts[a].view].current.Some?
  }

  /** The payload of an attempt, its delivery token deleted. */
  function Logical(s: State, a: nat): seq<J.Field>
    requires HasPayload(s, a)
  {
    var v := s.views[s.attempts[a].view];
    Deleted(PayloadFields(v.render.form, v.current.value.tip, true), TOKEN)
  }

  lemma {:induction false} AttemptFingerprint(events: seq<Event>, a: nat)
    requires a < |Run(events).attempts|
    ensures var s := Run(events);
            var x := s.attempts[a];
            x.view < |s.views| && s.views[x.view].current.Some?
            && x.fingerprint == Fingerprint(s.views[x.view].render.form, s.views[x.view].current.value.tip)
  {
    RunKeeps(events);
    assert AttemptSound(Run(events).views, Run(events).attempts[a]);
  }

  /** One attempt and the next share their key exactly when the logical payload is the same and
      the first did not create its order. */
  lemma {:induction false} NextAttemptKey(events: seq<Event>, i: nat)
    requires i + 1 < |Run(events).attempts|
    ensures var s := Run(events);
            && HasPayload(s, i) && HasPayload(s, i + 1)
            && (s.attempts[i].idempotencyKey == s.attempts[i + 1].idempotencyKey
                <==> Logical(s, i) == Logical(s, i + 1) && s.attempts[i].phase != Over(true))
  {
    hide Run, PayloadFields, Deleted, Fingerprint, J.Json, Apply;
    KeySharedExactly(events, i, i + 1);
    AttemptFingerprint(events, i);
    AttemptFingerprint(events, i + 1);
    var s := Run(events);
    var v, w := s.views[s.attempts[i].view], s.views[s.attempts[i + 1].view];
    FingerprintExact(v.render.form, v.current.value.tip, w.render.form, w.current.value.tip);
  }

  lemma {:induction false} RunSnoc(events: seq<Event>, e: Event)
    ensures Run(events + [e]) == Apply(Run(events), e)
  {
    assert (events + [e])[..|events|] == events;
  }

  /** The same order placed once more after it was created gets another key. */
  lemma {:induction false} CreatedOrderGetsNewKey(r: Render, m: Amounts)
    requires r.form.items != [] && !r.form.delivery && r.signedIn && r.deliveryReady && r.hydrated && !r.loading && !r.error
    requires Code(r.form) == "" && !r.form.selection.applyWingsReward
    ensures var s := Run([Rerender(r), PricingReply(0, Some(m)), Rerender(r), Press(1, true), FreshReply(0, Some(m)), PostReply(0, true), Press(1, true)]);
            |s.attempts| == 2 && s.attempts[0].fingerprint == s.attempts[1].fingerprint
            && s.attempts[0].idempotencyKey != s.attempts[1].idempotencyKey
  {
    hide Fingerprint, PayloadText, KeyText, RequestOf;
    var priced := [Rerender(r), PricingReply(0, Some(m)), Rerender(r)];
    PricedTwice(r, m);
    var q := QuoteFor(RequestOf(r), m);
    var s := Run(priced);
    var e, f, g, h := Press(1, true), FreshReply(0, Some(m)), PostReply(0, true), Press(1, true);
    RunSnoc(priced, e);
    var s1 := Run(priced + [e]);
    assert s1.attempts == [Attempt(1, None, Fingerprint(r.form, m.tip), 0, 0, Quoting)] && s1.nextKey == 1;
    RunSnoc(priced + [e], f);
    var s2 := Run(priced + [e] + [f]);
    assert s2.attempts == [Attempt(1, None, Fingerprint(r.form, m.tip), 0, 1, Posting)];
    RunSnoc(priced + [e] + [f], g);
    var s3 := Run(priced + [e] + [f] + [g]);
    assert s3.attempts == [Attempt(1, None, Fingerprint(r.form, m.tip), 0, 1, Over(true))] && s3.attemptRef.None?;
    RunSnoc(priced + [e] + [f] + [g], h);
    assert priced + [e] + [f] + [g] + [h]
        == [Rerender(r), PricingReply(0, Some(m)), Rerender(r), Press(1, true), FreshReply(0, Some(m)), PostReply(0, true), Press(1, true)];
  }

  lemma {:induction false} PricedTwice(r: Render, m: Amounts)
    requires r.deliveryReady && r.hydrated && !r.loading && !r.error && !r.form.delivery
    ensures Run([Rerender(r), PricingReply(0, Some(m)), Rerender(r)])
         == INITIAL.(views := [View(r, None), View(r, Some(QuoteFor(RequestOf(r), m)))], latest := Key(r),
                     quote := Some(QuoteFor(RequestOf(r), m)), pricedKey := Some(Key(r)))
  {
    hide KeyText, RequestOf;
    var a, b := Rerender(r), PricingReply(0, Some(m));
    RunSnoc([], a);
    assert [] + [a] == [a];
    assert Run([a]) == INITIAL.(views := [View(r, None)], latest := Key(r));
    RunSnoc([a], b);
    assert [a] + [b] == [a, b];
    assert Run([a, b]) == INITIAL.(views := [View(r, None)], latest := Key(r), quote := Some(QuoteFor(RequestOf(r), m)), pricedKey := Some(Key(r)));
    RunSnoc([a, b], a);
    assert [a, b] + [a] == [a, b, a];
  }
}
