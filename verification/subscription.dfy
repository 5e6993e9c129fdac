/** Reconciling a user's tier with a billing subscription (`processSub` in
    api/stripe.go).  The user store is a map from billing customer id to
    user; looking a user up and saving one are the two database calls, and
    each may fail.
 */
module Subscriptions {

  import opened Outcomes
  import opened Tiers

  /** The user record, with the subscription expiry as Unix seconds. */
  datatype User = User(id: nat, sub: string, email: string, firstName: string, lastName: string,
                       stripeId: string, tier: int, subscribedUntil: int)

  /** The parts of a billing subscription the reconciliation reads. */
  datatype Subscription = Subscription(id: string, customer: string, status: string, product: string,
                                       currentPeriodEnd: int)

  const StatusActive: string := "active"

  /** Users by billing customer id. */
  type Store = map<string, User>

  /** `UserByStripeID`: the query can fail, and a customer without a user
      is an error as well. */
  function UserByStripeId(store: Store, customer: string, fault: Option<Error>): (r: Result<User>)
    ensures r.Ok? <==> fault.None? && customer in store
    ensures r.Ok? ==> r.value == store[customer]
  {
    match fault
    case Some(e) => Err(e)
    case None => if customer in store then Ok(store[customer]) else Err(Failure("user not found"))
  }

  /** The user as the subscription says it should be: a subscription that
      is not active demotes to the free tier and keeps the expiry; an active
      one grants its product's tier (free for an unknown product) until the
      end of the current period. */
  function Reconciled(u: User, s: Subscription): (r: User)
    ensures r.(tier := u.tier, subscribedUntil := u.subscribedUntil) == u
    ensures s.status != StatusActive ==> r.tier == TierFree && r.subscribedUntil == u.subscribedUntil
    ensures s.status == StatusActive ==> r.subscribedUntil == s.currentPeriodEnd
    ensures s.status == StatusActive && s.product in StripePlans ==> r.tier == StripePlans[s.product]
    ensures s.status == StatusActive && s.product !in StripePlans ==> r.tier == TierFree
  {
    if s.status != StatusActive then u.(tier := TierFree)
    else u.(tier := TierForPlan(s.product), subscribedUntil := s.currentPeriodEnd)
  }

  /** Whether reconciling changes what is stored. */
  predicate Changes(u: User, s: Subscription)
  {
    var r := Reconciled(u, s);
    r.tier != u.tier || r.subscribedUntil != u.subscribedUntil
  }

  /** What `processSub` did: the user it saved, if any, and its result. */
  datatype Processed = Processed(saved: Option<User>, err: Option<Error>)

  /** `processSub`: `lookupFault` and `saveFault` are the outcomes of the
      two database calls. */
  function ProcessSub(store: Store, s: Subscription, lookupFault: Option<Error>, saveFault: Option<Error>): (r: Processed)
    ensures UserByStripeId(store, s.customer, lookupFault).Err? ==>
              r.saved.None? && r.err == Some(Context("failed to fetch user from DB based on subscription info",
                                                     UserByStripeId(store, s.customer, lookupFault).error))
    ensures r.saved.Some? <==> UserByStripeId(store, s.customer, lookupFault).Ok? && Changes(store[s.customer], s)
    ensures r.saved.Some? ==> r.saved.value == Reconciled(store[s.customer], s) && r.err == saveFault
    ensures UserByStripeId(store, s.customer, lookupFault).Ok? && r.saved.None? ==> r.err.None?
  {
    match UserByStripeId(store, s.customer, lookupFault)
    case Err(e) => Processed(None, Some(Context("failed to fetch user from DB based on subscription info", e)))
    case Ok(u) =>
      var updated := Reconciled(u, s);
      if updated.tier != u.tier || updated.subscribedUntil != u.subscribedUntil then Processed(Some(updated), saveFault)
      else Processed(None, None)
  }

  /** The store after processing: a save that succeeded replaces the user. */
  function After(store: Store, s: Subscription, p: Processed): (r: Store)
    ensures p.saved.Some? && p.err.None? ==> r == store[s.customer := p.saved.value]
    ensures !(p.saved.Some? && p.err.None?) ==> r == store
  {
    if p.saved.Some? && p.err.None? then store[s.customer := p.saved.value] else store
  }

  /** Reconciling is idempotent. */
  lemma ReconciledIdempotent(u: User, s: Subscription)
    ensures Reconciled(Reconciled(u, s), s) == Reconciled(u, s)
    ensures !Changes(Reconciled(u, s), s)
  {
  }

  /** Processing a subscription leaves the stored user reconciled with it,
      unless a database call failed. */
  lemma ProcessSubReconciles(store: Store, s: Subscription, lookupFault: Option<Error>, saveFault: Option<Error>)
    requires s.customer in store && lookupFault.None? && saveFault.None?
    ensures var p := ProcessSub(store, s, lookupFault, saveFault);
            p.err.None? && After(store, s, p) == store[s.customer := Reconciled(store[s.customer], s)]
  {
    var u := store[s.customer];
    if !Changes(u, s) {
      assert Reconciled(u, s) == u;
      assert store[s.customer := u] == store;
    }
  }

  /** Processing the same subscription a second time, after a first run
      that did not fail, saves nothing and reports nothing, whatever the
      save would have done. */
  lemma ProcessSubTwice(store: Store, s: Subscription, saveFault: Option<Error>, saveFault2: Option<Error>)
    requires s.customer in store
    requires ProcessSub(store, s, None, saveFault).err.None?
    ensures var once := After(store, s, ProcessSub(store, s, None, saveFault));
            ProcessSub(once, s, None, saveFault2) == Processed(None, None)
  {
    var u := store[s.customer];
    ReconciledIdempotent(u, s);
    if !Changes(u, s) {
      assert Reconciled(u, s) == u;
    }
  }
}
