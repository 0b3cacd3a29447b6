/** The two pools a key pays Finder leads from: its Finder allowance, then verifications at two for one. */
module FinderBilling {
  datatype Option<T> = None | Some(value: T)

  const FINDER_OVERFLOW_VERIFICATION_COST: nat := 2
  const FINDER_BATCH_SIZE: nat := 25
  const VERIFY_CONCURRENCY: nat := 10

  /** The billing columns of a key. */
  datatype Key = Key(plan: Option<string>, monthlyLimit: Option<int>, usage: nat, extraCredits: int, finderUsage: nat)

  function Max(a: int, b: int): int {
    if a >= b then a else b
  }

  function Min(a: int, b: int): int {
    if a <= b then a else b
  }

  function PlanOf(plan: Option<string>): string {
    if plan.Some? then plan.value else "free"
  }

  function GetPlanLimit(plan: Option<string>, monthlyLimit: Option<int>): int {
    match PlanOf(plan)
    case "free" => 1_000
    case "starter" => 5_000
    case "growth" => 15_000
    case "scale" => 100_000
    case _ => if monthlyLimit.Some? then monthlyLimit.value else 1_000
  }

  function GetFinderLimit(plan: Option<string>): int {
    match PlanOf(plan)
    case "free" => 25
    case "starter" => 250
    case "growth" => 750
    case "scale" => 2_500
    case _ => 25
  }

  // ---- Affordability ----

  function VerificationLimit(k: Key): int {
    GetPlanLimit(k.plan, k.monthlyLimit) + k.extraCredits
  }

  function FinderRemaining(k: Key): nat {
    Max(0, GetFinderLimit(k.plan) - k.finderUsage)
  }

  function VerificationRemaining(k: Key): nat {
    Max(0, VerificationLimit(k) - k.usage)
  }

  function MaxAffordable(k: Key): nat {
    FinderRemaining(k) + VerificationRemaining(k) / FINDER_OVERFLOW_VERIFICATION_COST
  }

  // ---- Billing ----

  /** `incrementFinderUsage`. */
  function Bill(k: Key, count: int): Key {
    if count <= 0 then k
    else
      var fromAllowance := Min(count, FinderRemaining(k));
      var overflow := count - fromAllowance;
      k.(finderUsage := k.finderUsage + fromAllowance, usage := k.usage + overflow * FINDER_OVERFLOW_VERIFICATION_COST)
  }

  /** `incrementUsageBy`. */
  function UseVerifications(k: Key, count: int): Key {
    if count <= 0 then k else k.(usage := k.usage + count)
  }

  /** The bill in plain numbers: leads within the allowance cost one of it each, and every lead beyond it costs
      two verifications. */
  lemma BillInWords(k: Key, count: nat)
    ensures var left := GetFinderLimit(k.plan) - k.finderUsage; var b := Bill(k, count);
      && (left <= 0 ==> b.usage == k.usage + 2 * count && b.finderUsage == k.finderUsage)
      && (count <= left ==> b.usage == k.usage && b.finderUsage == k.finderUsage + count)
      && (0 < left < count ==> b.usage == k.usage + 2 * (count - left) && b.finderUsage == k.finderUsage + left)
  {
  }

  /** And what is affordable: the allowance left, and one lead for every two verifications left. */
  lemma AffordableInWords(k: Key, count: nat)
    ensures var left := GetPlanLimit(k.plan, k.monthlyLimit) + k.extraCredits - k.usage;
      count <= MaxAffordable(k) <==>
        || count <= GetFinderLimit(k.plan) - k.finderUsage || count == 0
        || 2 * (count - Max(0, GetFinderLimit(k.plan) - k.finderUsage)) <= left
  {
  }

  /** Billing in two parts is billing the sum: no rounding is lost at the change of pools. */
  lemma BillsAdd(k: Key, a: int, b: int)
    ensures Bill(Bill(k, a), b) == Bill(k, Max(a, 0) + Max(b, 0))
  {
  }

  function BillAll(k: Key, counts: seq<int>): Key
    decreases |counts|
  {
    if counts == [] then k else Bill(BillAll(k, counts[..|counts| - 1]), counts[|counts| - 1])
  }

  function Total(counts: seq<int>): nat {
    if counts == [] then 0 else Total(counts[..|counts| - 1]) + Max(counts[|counts| - 1], 0)
  }

  /** So the bill of a month depends only on the number of leads, not on how they were batched or ordered. */
  lemma {:induction false} BillingIsPathIndependent(k: Key, counts: seq<int>)
    ensures BillAll(k, counts) == Bill(k, Total(counts))
    decreases |counts|
  {
    if counts == [] {
    } else {
      var n := |counts| - 1;
      BillingIsPathIndependent(k, counts[..n]);
      BillsAdd(k, Total(counts[..n]), counts[n]);
    }
  }

  /** What a bill leaves affordable is exactly what was affordable less the count, despite the floor; and
      nothing when the count was more. */
  lemma AffordableDropsByTheCount(k: Key, count: int)
    ensures MaxAffordable(Bill(k, count)) == Max(0, MaxAffordable(k) - Max(count, 0))
  {
  }

  predicate WithinLimits(k: Key) {
    k.usage <= VerificationLimit(k) && k.finderUsage <= GetFinderLimit(k.plan)
  }

  /** A key within its limits stays so exactly when it is billed no more than it can afford. */
  lemma AffordableMeansWithinLimits(k: Key, count: int)
    requires WithinLimits(k)
    ensures WithinLimits(Bill(k, count)) <==> count <= MaxAffordable(k)
  {
  }

  /** Whatever the key's state, an affordable bill moves no counter past its limit. */
  lemma NoCounterPasses(k: Key, count: int)
    requires count <= MaxAffordable(k)
    ensures var b := Bill(k, count);
      && (b.usage == k.usage || b.usage <= VerificationLimit(k))
      && (b.finderUsage == k.finderUsage || b.finderUsage <= GetFinderLimit(k.plan))
  {
  }

  datatype Use = Leads(count: int) | Verifications(count: int)

  function Spend(k: Key, uses: seq<Use>): Key
    decreases |uses|
  {
    if uses == [] then k
    else
      var before := Spend(k, uses[..|uses| - 1]);
      match uses[|uses| - 1]
      case Leads(n) => Bill(before, n)
      case Verifications(n) => UseVerifications(before, n)
  }

  function LeadsIn(uses: seq<Use>): nat {
    if uses == [] then 0
    else LeadsIn(uses[..|uses| - 1]) + (if uses[|uses| - 1].Leads? then Max(uses[|uses| - 1].count, 0) else 0)
  }

  /** Plain verification never eats into the Finder allowance: after any mix of leads and verifications the
      allowance is short only by the leads. */
  lemma {:induction false} AllowanceIsGuaranteed(k: Key, uses: seq<Use>)
    ensures FinderRemaining(Spend(k, uses)) == Max(0, FinderRemaining(k) - LeadsIn(uses))
    ensures Spend(k, uses).plan == k.plan
    ensures MaxAffordable(Spend(k, uses)) >= FinderRemaining(k) - LeadsIn(uses)
    decreases |uses|
  {
    if uses == [] {
    } else {
      AllowanceIsGuaranteed(k, uses[..|uses| - 1]);
    }
  }

  // ---- The key's row ----

  /** How many of the first `n` addresses the engine answered for. */
  function Answered(emails: seq<string>, engine: string -> bool, n: nat): nat
    requires n <= |emails|
  {
    if n == 0 then 0 else Answered(emails, engine, n - 1) + (if engine(emails[n - 1]) then 1 else 0)
  }

  lemma {:induction false} AnsweredAtMost(emails: seq<string>, engine: string -> bool, n: nat)
    requires n <= |emails|
    ensures Answered(emails, engine, n) <= n
  {
    if n == 0 {
    } else {
      AnsweredAtMost(emails, engine, n - 1);
    }
  }

  class KeyRow {
    const plan: Option<string>
    const monthlyLimit: Option<int>
    const extraCredits: int
    var usage: nat
    var finderUsage: nat

    ghost function Now(): Key
      reads this
    {
      Key(plan, monthlyLimit, usage, extraCredits, finderUsage)
    }

    constructor (k: Key)
      ensures Now() == k
    {
      plan, monthlyLimit, extraCredits := k.plan, k.monthlyLimit, k.extraCredits;
      usage, finderUsage := k.usage, k.finderUsage;
    }

    method Affordability() returns (finderRemaining: nat, verificationAsFinderRemaining: nat, maxAffordable: nat)
      ensures finderRemaining == FinderRemaining(Now()) && maxAffordable == MaxAffordable(Now())
      ensures finderRemaining + verificationAsFinderRemaining == maxAffordable
    {
      finderRemaining := Max(0, GetFinderLimit(plan) - finderUsage);
      var verificationRemaining := Max(0, GetPlanLimit(plan, monthlyLimit) + extraCredits - usage);
      verificationAsFinderRemaining := verificationRemaining / FINDER_OVERFLOW_VERIFICATION_COST;
      maxAffordable := finderRemaining + verificationAsFinderRemaining;
    }

    method IncrementUsageBy(count: int)
      modifies this`usage
      ensures Now() == UseVerifications(old(Now()), count)
      ensures usage == old(usage) + Max(count, 0) && FinderRemaining(Now()) == old(FinderRemaining(Now()))
    {
      if count <= 0 {
        return;
      }
      usage := usage + count;
    }

    method IncrementFinderUsage(count: int)
      modifies this
      ensures Now() == Bill(old(Now()), count)
      ensures count > 0 && finderUsage == old(finderUsage) ==> usage == old(usage) + 2 * count
    {
      if count <= 0 {
        return;
      }
      var finderRemaining, _, _ := Affordability();
      var fromFinderAllowance := Min(count, finderRemaining);
      var overflow := count - fromFinderAllowance;
      if fromFinderAllowance > 0 {
        finderUsage := finderUsage + fromFinderAllowance;
      }
      if overflow > 0 {
        usage := usage + overflow * FINDER_OVERFLOW_VERIFICATION_COST;
      }
    }

    /** The size of a search: at least one lead, if any is affordable, and never more than is. */
    method SearchSize(requested: Option<int>) returns (totalResults: nat)
      ensures totalResults <= MaxAffordable(Now()) && totalResults <= 2500
      ensures totalResults == 0 <==> MaxAffordable(Now()) == 0
      ensures requested.Some? && 1 <= requested.value <= Min(2500, MaxAffordable(Now())) ==>
        totalResults == requested.value
    {
      var _, _, maxAffordable := Affordability();
      if maxAffordable == 0 {
        return 0;
      }
      var wanted := if requested.Some? then requested.value else 100;
      totalResults := Min(Min(Max(wanted, 1), 2500), maxAffordable);
    }

    /** Verifies a batch of new leads, in chunks, and bills those the engine answered for. */
    method ProcessFound(newEmails: seq<string>, engine: string -> bool)
      returns (toProcess: seq<string>, verifiedCount: nat)
      modifies this
      ensures toProcess <= newEmails
      ensures |toProcess| == Min(Min(25, MaxAffordable(old(Now()))), |newEmails|)
      ensures verifiedCount == Answered(toProcess, engine, |toProcess|)
      ensures Now() == Bill(old(Now()), verifiedCount)
      ensures MaxAffordable(Now()) == MaxAffordable(old(Now())) - verifiedCount
      ensures WithinLimits(old(Now())) ==> WithinLimits(Now())
    {
      var _, _, affordNow := Affordability();
      var batchCap := Min(Min(FINDER_BATCH_SIZE, affordNow), |newEmails|);
      toProcess := newEmails[..batchCap];
      verifiedCount := 0;
      var i := 0;
      while i < |toProcess|
        invariant 0 <= i <= |toProcess| && verifiedCount == Answered(toProcess, engine, i)
      {
        var end := Min(i + VERIFY_CONCURRENCY, |toProcess|);
        while i < end
          invariant i <= end && verifiedCount == Answered(toProcess, engine, i)
        {
          if engine(toProcess[i]) {
            verifiedCount := verifiedCount + 1;
          }
          i := i + 1;
        }
      }
      AnsweredAtMost(toProcess, engine, |toProcess|);
      ghost var before := Now();
      AffordableDropsByTheCount(before, verifiedCount);
      if WithinLimits(before) {
        AffordableMeansWithinLimits(before, verifiedCount);
      }
      if verifiedCount > 0 {
        IncrementFinderUsage(verifiedCount);
      }
    }
  }
}
