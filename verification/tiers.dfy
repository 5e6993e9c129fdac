/** The service tiers and the billing plans that map to them (`stripePlans`
    and `planForTier` in api/stripe.go).
 */
module Tiers {

  /** The tier constants are defined outside the modelled files; only
      their being four distinct integers matters. */
  const TierFree: int := 1
  const TierPremium5: int := 2
  const TierPremium20: int := 3
  const TierPremium80: int := 4

  const FreePlan: string := "prod_J2FBsxvEl4VoUK"
  const Premium5Plan: string := "prod_J06Q7nJH3HJcYN"
  const Premium20Plan: string := "prod_J06Qu7zg1unO8R"
  const Premium80Plan: string := "prod_J06QbGjCvmZQGZ"

  /** `stripePlans`: billing product to tier. */
  const StripePlans: map<string, int> := map[
    FreePlan := TierFree,
    Premium5Plan := TierPremium5,
    Premium20Plan := TierPremium20,
    Premium80Plan := TierPremium80
  ]

  /** A listing of a plan table's entries, as a map iteration produces it. */
  predicate Lists(entries: seq<(string, int)>, table: map<string, int>)
  {
    && (forall i :: 0 <= i < |entries| ==> entries[i].0 in table && table[entries[i].0] == entries[i].1)
    && (forall p :: p in table ==> exists i :: 0 <= i < |entries| && entries[i].0 == p)
  }

  /** No two plans share a tier. */
  predicate Injective(table: map<string, int>)
  {
    forall p, q :: p in table && q in table && table[p] == table[q] ==> p == q
  }

  /** The loop of `planForTier` over one iteration order: the first plan
      whose tier is `t`, or "" when there is none. */
  function FindPlan(entries: seq<(string, int)>, t: int): (r: string)
    ensures (exists i :: 0 <= i < |entries| && entries[i].1 == t) ==> exists i :: 0 <= i < |entries| && entries[i] == (r, t)
    ensures (forall i :: 0 <= i < |entries| ==> entries[i].1 != t) ==> r == ""
  {
    if entries == [] then ""
    else if entries[0].1 == t then entries[0].0
    else
      var r := FindPlan(entries[1..], t);
      assert (exists i :: 0 <= i < |entries| && entries[i].1 == t) ==> exists i :: 0 <= i < |entries| && entries[i] == (r, t) by {
        if exists i :: 0 <= i < |entries| && entries[i].1 == t {
          var i :| 0 <= i < |entries| && entries[i].1 == t;
          assert entries[1..][i - 1].1 == t;
          var j :| 0 <= j < |entries[1..]| && entries[1..][j] == (r, t);
          assert entries[j + 1] == (r, t);
        }
      }
      assert (forall i :: 0 <= i < |entries| ==> entries[i].1 != t) ==> r == "" by {
        if forall i :: 0 <= i < |entries| ==> entries[i].1 != t {
          assert forall i :: 0 <= i < |entries[1..]| ==> entries[1..][i] == entries[i + 1];
        }
      }
      r
  }

  /** The entries of `stripePlans` in the order they are written. */
  const PlanEntries: seq<(string, int)> :=
    [(FreePlan, TierFree), (Premium5Plan, TierPremium5), (Premium20Plan, TierPremium20), (Premium80Plan, TierPremium80)]

  /** `planForTier`: the plan billed for tier `t`, or "" for a tier no plan
      maps to. */
  function PlanForTier(t: int): (r: string)
    ensures (exists i :: 0 <= i < |PlanEntries| && PlanEntries[i].1 == t) ==> (r, t) in PlanEntries
    ensures (forall i :: 0 <= i < |PlanEntries| ==> PlanEntries[i].1 != t) ==> r == ""
  {
    FindPlan(PlanEntries, t)
  }

  /** The tier a billing product grants; an unknown product grants the free
      tier. */
  function TierForPlan(product: string): (t: int)
    ensures product in StripePlans ==> t == StripePlans[product]
    ensures product !in StripePlans ==> t == TierFree
  {
    if product in StripePlans then StripePlans[product] else TierFree
  }

  lemma PlanTableFacts()
    ensures Lists(PlanEntries, StripePlans)
    ensures Injective(StripePlans)
    ensures TierFree != TierPremium5 && TierFree != TierPremium20 && TierFree != TierPremium80
    ensures TierPremium5 != TierPremium20 && TierPremium5 != TierPremium80 && TierPremium20 != TierPremium80
  {
    forall p | p in StripePlans ensures exists i :: 0 <= i < |PlanEntries| && PlanEntries[i].0 == p {
      if p == FreePlan { assert PlanEntries[0].0 == p; }
      else if p == Premium5Plan { assert PlanEntries[1].0 == p; }
      else if p == Premium20Plan { assert PlanEntries[2].0 == p; }
      else { assert PlanEntries[3].0 == p; }
    }
  }

  /** Whatever the iteration order, an injective table yields the one plan
      whose tier is `t`, and "" exactly when no plan has tier `t`. */
  lemma FindPlanAnyOrder(entries: seq<(string, int)>, table: map<string, int>, t: int)
    requires Lists(entries, table) && Injective(table)
    ensures FindPlan(entries, t) != "" ==> FindPlan(entries, t) in table && table[FindPlan(entries, t)] == t
    ensures (exists p :: p in table && table[p] == t && p != "") ==> FindPlan(entries, t) != ""
    ensures forall p :: p in table && table[p] == t && p != "" ==> FindPlan(entries, t) == p
  {
    var r := FindPlan(entries, t);
    if r != "" {
      assert exists i :: 0 <= i < |entries| && entries[i].1 == t;
      var i :| 0 <= i < |entries| && entries[i] == (r, t);
    }
    forall p | p in table && table[p] == t && p != "" ensures r == p {
      var i :| 0 <= i < |entries| && entries[i].0 == p;
      assert entries[i].1 == t;
      var j :| 0 <= j < |entries| && entries[j] == (r, t);
    }
  }

  /** `planForTier(t)` names a plan of tier `t`, and is "" exactly when no
      plan has tier `t`. */
  lemma PlanForTierSound(t: int)
    ensures PlanForTier(t) != "" ==> PlanForTier(t) in StripePlans && StripePlans[PlanForTier(t)] == t
    ensures PlanForTier(t) == "" <==> forall p :: p in StripePlans ==> StripePlans[p] != t
  {
    PlanTableFacts();
    FindPlanAnyOrder(PlanEntries, StripePlans, t);
  }

  /** Go iterates `stripePlans` in an unspecified order; every order gives
      the same answer. */
  lemma PlanForTierAnyOrder(entries: seq<(string, int)>, t: int)
    requires Lists(entries, StripePlans)
    ensures FindPlan(entries, t) == PlanForTier(t)
  {
    PlanTableFacts();
    FindPlanAnyOrder(entries, StripePlans, t);
    FindPlanAnyOrder(PlanEntries, StripePlans, t);
  }

  /** The plan and tier lookups are inverse on the listed plans. */
  lemma PlanForTierInverse(p: string)
    requires p in StripePlans
    ensures PlanForTier(StripePlans[p]) == p
    ensures TierForPlan(PlanForTier(StripePlans[p])) == StripePlans[p]
  {
    PlanTableFacts();
    FindPlanAnyOrder(PlanEntries, StripePlans, StripePlans[p]);
  }

  /** Each of the four tiers has its plan. */
  lemma TierPlans()
    ensures PlanForTier(TierFree) == FreePlan
    ensures PlanForTier(TierPremium5) == Premium5Plan
    ensures PlanForTier(TierPremium20) == Premium20Plan
    ensures PlanForTier(TierPremium80) == Premium80Plan
  {
    PlanForTierInverse(FreePlan);
    PlanForTierInverse(Premium5Plan);
    PlanForTierInverse(Premium20Plan);
    PlanForTierInverse(Premium80Plan);
  }
}
