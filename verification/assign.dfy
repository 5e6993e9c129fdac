/** Moving a user to another tier on both sides, billing first and the
    database second, with one compensating call (`assignTier` in
    api/stripe.go), and the parameters of a new billing customer
    (`createStripeCustomer`).
 */
module AssignTier {

  import opened Outcomes
  import opened Tiers
  import opened Subscriptions

  /** The external calls `assignTier` makes, in order. */
  datatype Call =
    | BillingUpdate(customer: string, plan: string)   // `customer.Update` with a new plan
    | SetTier(userId: nat, tier: int)                 // `UserSetTier`

  /** The calls made and the error returned. */
  datatype Assigned = Assigned(calls: seq<Call>, err: Option<Error>)

  /** `assignTier(tier, u)`; the three faults are the outcomes of the
      billing update, the database update and the billing revert. */
  function Assign(tier: int, u: User, updateFault: Option<Error>, setTierFault: Option<Error>,
                  revertFault: Option<Error>): (r: Assigned)
    ensures 1 <= |r.calls| <= 3
    ensures r.calls[0] == BillingUpdate(u.stripeId, PlanForTier(tier))
    ensures updateFault.Some? ==> r == Assigned([BillingUpdate(u.stripeId, PlanForTier(tier))],
                                                Some(Context("failed to update customer on Stripe", updateFault.value)))
    ensures updateFault.None? ==> |r.calls| >= 2 && r.calls[1] == SetTier(u.id, tier)
    ensures updateFault.None? && setTierFault.None? ==> |r.calls| == 2 && r.err.None?
    ensures updateFault.None? && setTierFault.Some? ==>
              |r.calls| == 3 && r.calls[2] == BillingUpdate(u.stripeId, PlanForTier(u.tier))
    ensures updateFault.None? && setTierFault.Some? ==>
              r.err == Some(Composite([Context("failed to update user in DB", setTierFault.value)]
                                      + (if revertFault.Some?
                                         then [Context("failed to revert the change on Stripe", revertFault.value)]
                                         else [])))
    ensures r.err.None? <==> updateFault.None? && setTierFault.None?
  {
    var update := BillingUpdate(u.stripeId, PlanForTier(tier));
    match updateFault
    case Some(e) => Assigned([update], Some(Context("failed to update customer on Stripe", e)))
    case None =>
      var setTier := SetTier(u.id, tier);
      match setTierFault
      case None => Assigned([update, setTier], None)
      case Some(e) =>
        var revert := BillingUpdate(u.stripeId, PlanForTier(u.tier));
        var err2 := match revertFault
          case None => None
          case Some(e2) => Some(Context("failed to revert the change on Stripe", e2));
        ComposeTwo(Context("failed to update user in DB", e), err2);
        Assigned([update, setTier, revert], Compose([Some(Context("failed to update user in DB", e)), err2]))
  }

  /** What the two sides hold: the customer's billing plan and the user's
      stored tier. */
  datatype Sides = Sides(plan: string, tier: int)

  /** The two sides agree when the billing plan is the tier's plan. */
  predicate Consistent(s: Sides)
  {
    s.plan == PlanForTier(s.tier)
  }

  /** The sides after the calls of a run, each call taking effect when its
      fault is absent. */
  function Effect(start: Sides, calls: seq<Call>, faults: seq<Option<Error>>): (r: Sides)
    requires |faults| == |calls|
    decreases |calls|
  {
    if calls == [] then start
    else
      var next := if faults[0].Some? then start
                  else match calls[0]
                    case BillingUpdate(_, plan) => start.(plan := plan)
                    case SetTier(_, tier) => start.(tier := tier);
      Effect(next, calls[1..], faults[1..])
  }

  /** The faults of the calls actually made. */
  function Faults(r: Assigned, updateFault: Option<Error>, setTierFault: Option<Error>, revertFault: Option<Error>)
    : (f: seq<Option<Error>>)
    requires 1 <= |r.calls| <= 3
    ensures |f| == |r.calls|
  {
    [updateFault, setTierFault, revertFault][..|r.calls|]
  }

  /** Starting from agreeing sides: success leaves both on the new tier; a
      billing failure changes nothing; a database failure with a working
      revert restores the old plan; and the sides disagree afterwards only
      when the revert failed, in which case the error carries both the
      database failure and the revert failure. */
  lemma AssignOutcome(tier: int, u: User, planBefore: string,
                      updateFault: Option<Error>, setTierFault: Option<Error>, revertFault: Option<Error>)
    requires Consistent(Sides(planBefore, u.tier))
    ensures var r := Assign(tier, u, updateFault, setTierFault, revertFault);
            var after := Effect(Sides(planBefore, u.tier), r.calls, Faults(r, updateFault, setTierFault, revertFault));
            && (r.err.None? ==> after == Sides(PlanForTier(tier), tier) && Consistent(after))
            && (updateFault.Some? ==> after == Sides(planBefore, u.tier))
            && (updateFault.None? && setTierFault.Some? && revertFault.None? ==> after == Sides(planBefore, u.tier))
            && (!Consistent(after) ==>
                  && updateFault.None? && setTierFault.Some? && revertFault.Some?
                  && r.err == Some(Composite([Context("failed to update user in DB", setTierFault.value),
                                              Context("failed to revert the change on Stripe", revertFault.value)])))
  {
    var r := Assign(tier, u, updateFault, setTierFault, revertFault);
    var start := Sides(planBefore, u.tier);
    var f := Faults(r, updateFault, setTierFault, revertFault);
    if updateFault.Some? {
      assert r.calls[1..] == [] && f[1..] == [];
      assert Effect(start, r.calls, f) == Effect(start, [], []) == start;
    } else if setTierFault.None? {
      var mid := Sides(PlanForTier(tier), u.tier);
      assert f == [None, None];
      assert r.calls[1..][1..] == [] && f[1..][1..] == [];
      assert Effect(start, r.calls, f) == Effect(mid, r.calls[1..], f[1..]);
      assert Effect(mid, r.calls[1..], f[1..]) == Effect(mid.(tier := tier), [], []);
    } else {
      var mid := Sides(PlanForTier(tier), u.tier);
      assert f == [None, setTierFault, revertFault];
      assert r.calls[1..][1..][1..] == [] && f[1..][1..][1..] == [];
      assert Effect(start, r.calls, f) == Effect(mid, r.calls[1..], f[1..]);
      assert Effect(mid, r.calls[1..], f[1..]) == Effect(mid, r.calls[1..][1..], f[1..][1..]);
      var last := if revertFault.Some? then mid else mid.(plan := PlanForTier(u.tier));
      assert Effect(mid, r.calls[1..][1..], f[1..][1..]) == Effect(last, [], []);
      if revertFault.Some? {
        assert [Context("failed to update user in DB", setTierFault.value)]
               + [Context("failed to revert the change on Stripe", revertFault.value)]
               == [Context("failed to update user in DB", setTierFault.value),
                   Context("failed to revert the change on Stripe", revertFault.value)];
      } else {
        assert last == start;
      }
    }
  }

  // ------------------------------------------------------- new customers

  /** The fields of a new billing customer. */
  datatype CustomerParams = CustomerParams(description: string, email: string, name: string, plan: string)

  /** `createStripeCustomer`: the customer is described by the user's
      subject, named "first last" and put on the plan of the user's tier. */
  function NewCustomerParams(u: User): (p: CustomerParams)
    ensures p.description == u.sub && p.email == u.email
    ensures |p.name| == |u.firstName| + 1 + |u.lastName|
    ensures p.name[..|u.firstName|] == u.firstName && p.name[|u.firstName|] == ' '
    ensures p.name[|u.firstName| + 1..] == u.lastName
  {
    CustomerParams(u.sub, u.email, u.firstName + " " + u.lastName, PlanForTier(u.tier))
  }

  /** A user on a listed tier gets a customer on that tier's plan; a new
      user, on the free tier, gets the free plan. */
  lemma NewCustomerPlan(u: User)
    ensures (exists p :: p in StripePlans && StripePlans[p] == u.tier) ==>
              NewCustomerParams(u).plan in StripePlans && StripePlans[NewCustomerParams(u).plan] == u.tier
    ensures u.tier == TierFree ==> NewCustomerParams(u).plan == FreePlan
  {
    PlanForTierSound(u.tier);
    TierPlans();
  }
}
