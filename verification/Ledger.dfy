/** Add-on grants beside the monthly plan balance, and the spending of one unit. */
module Ledger {
  import opened Wrappers
  import opened PricingCatalog
  import opened Subscription

  type UserId = string
  type OrderId = string

  /** What a consume call may spend; listing capacity is only counted. */
  type Consumable = k: EntitlementType | k != ActiveListing witness MatchedOffer

  datatype Grant = Grant(
    userId: UserId,
    paymentTransaction: Option<OrderId>,
    kind: EntitlementType,
    granted: int,
    remaining: int,
    startsAt: int,
    expiresAt: int)
  {
    predicate Usable(u: UserId, k: EntitlementType, now: int) {
      userId == u && kind == k && startsAt <= now < expiresAt && remaining > 0
    }

    predicate Inv() {
      0 <= remaining <= granted && startsAt < expiresAt
    }
  }

  /** The rows a consume call reads and writes: one owner's quota row and the grant table. */
  datatype Account = Account(quota: UserQuota, grants: seq<Grant>)

  function Balance(q: UserQuota, k: Consumable): int {
    if k == MatchedOffer then q.freeOffersLeft else q.optimizerUsesLeft
  }

  function WithBalance(q: UserQuota, k: Consumable, n: int): UserQuota {
    if k == MatchedOffer then q.(freeOffersLeft := n) else q.(optimizerUsesLeft := n)
  }

  /** The aggregate over an owner's usable grants. */
  function UsableUnits(grants: seq<Grant>, u: UserId, k: EntitlementType, now: int): int {
    if grants == [] then 0
    else
      var g := grants[|grants| - 1];
      UsableUnits(grants[..|grants| - 1], u, k, now) + if g.Usable(u, k, now) then g.remaining else 0
  }

  /** The first usable grant in the order of expiry; among equal expiries the oldest row. */
  function SoonestGrant(grants: seq<Grant>, u: UserId, k: EntitlementType, now: int): (best: Option<nat>)
    ensures best.Some? ==> best.value < |grants| && grants[best.value].Usable(u, k, now)
    ensures best.Some? ==> forall i | 0 <= i < |grants| && grants[i].Usable(u, k, now) ::
                             grants[best.value].expiresAt <= grants[i].expiresAt
    ensures best.None? ==> forall i | 0 <= i < |grants| :: !grants[i].Usable(u, k, now)
  {
    if grants == [] then None
    else
      var n := |grants| - 1;
      var best := SoonestGrant(grants[..n], u, k, now);
      if !grants[n].Usable(u, k, now) then best
      else if best.None? || grants[n].expiresAt < grants[best.value].expiresAt then Some(n)
      else best
  }

  function TakeFromGrant(grants: seq<Grant>, i: nat): seq<Grant>
    requires i < |grants|
  {
    grants[i := grants[i].(remaining := grants[i].remaining - 1)]
  }

  /** `consumeSoonestExpiringWithClient`: the rows after it and the units left, or None when nothing could be spent. */
  function ConsumeSoonestExpiring(a: Account, u: UserId, k: Consumable, now: int): Option<(Account, int)> {
    var best := SoonestGrant(a.grants, u, k, now);
    var planExpiresAt := if a.quota.currentPeriodEndsAt.Some? then a.quota.currentPeriodEndsAt.value else now;
    if best.Some? && (Balance(a.quota, k) <= 0 || a.grants[best.value].expiresAt < planExpiresAt) then
      var grants := TakeFromGrant(a.grants, best.value);
      Some((a.(grants := grants), Balance(a.quota, k) + UsableUnits(grants, u, k, now)))
    else if Balance(a.quota, k) > 0 then
      var quota := WithBalance(a.quota, k, Balance(a.quota, k) - 1);
      Some((a.(quota := quota), Balance(quota, k) + UsableUnits(a.grants, u, k, now)))
    else None
  }

  /** Everything the owner could spend on `k` at this instant. */
  function LiveTotal(a: Account, u: UserId, k: Consumable, now: int): int {
    Balance(a.quota, k) + UsableUnits(a.grants, u, k, now)
  }

  /** Every unit in these rows: both plan balances and the whole grant table, usable or not. */
  function AllUnits(a: Account): int {
    a.quota.freeOffersLeft + a.quota.optimizerUsesLeft + GrantedUnits(a.grants)
  }

  function GrantedUnits(grants: seq<Grant>): int {
    if grants == [] then 0 else GrantedUnits(grants[..|grants| - 1]) + grants[|grants| - 1].remaining
  }

  predicate GrantsInv(grants: seq<Grant>) {
    forall i | 0 <= i < |grants| :: grants[i].Inv()
  }

  predicate AccountInv(a: Account) {
    QuotaInv(a.quota) && GrantsInv(a.grants)
  }

  lemma {:induction false} UsableUnitsSign(grants: seq<Grant>, u: UserId, k: EntitlementType, now: int)
    ensures UsableUnits(grants, u, k, now) >= 0
    ensures UsableUnits(grants, u, k, now) > 0 <==> exists i | 0 <= i < |grants| :: grants[i].Usable(u, k, now)
  {
    if grants != [] {
      var n := |grants| - 1;
      UsableUnitsSign(grants[..n], u, k, now);
      assert forall i | 0 <= i < n :: grants[..n][i] == grants[i];
    }
  }

  lemma {:induction false} TakeFromUsable(grants: seq<Grant>, i: nat, u: UserId, k: EntitlementType, now: int)
    requires i < |grants| && grants[i].Usable(u, k, now)
    ensures UsableUnits(TakeFromGrant(grants, i), u, k, now) == UsableUnits(grants, u, k, now) - 1
    ensures GrantedUnits(TakeFromGrant(grants, i)) == GrantedUnits(grants) - 1
  {
    var n := |grants| - 1;
    var taken := TakeFromGrant(grants, i);
    if i == n {
      assert taken[..n] == grants[..n];
    } else {
      assert taken[..n] == TakeFromGrant(grants[..n], i);
      TakeFromUsable(grants[..n], i, u, k, now);
    }
  }

  lemma {:induction false} TakeSparesOthers(grants: seq<Grant>, i: nat, u: UserId, k: EntitlementType, now: int)
    requires i < |grants| && (grants[i].userId != u || grants[i].kind != k)
    ensures UsableUnits(TakeFromGrant(grants, i), u, k, now) == UsableUnits(grants, u, k, now)
  {
    var n := |grants| - 1;
    var taken := TakeFromGrant(grants, i);
    if i == n {
      assert taken[..n] == grants[..n];
    } else {
      assert taken[..n] == TakeFromGrant(grants[..n], i);
      TakeSparesOthers(grants[..n], i, u, k, now);
    }
  }

  /** A unit is spent exactly when there is one, the answer is what is left of that kind, and nothing else moves. */
  lemma {:induction false} ConsumeConserves(a: Account, u: UserId, k: Consumable, now: int)
    requires AccountInv(a)
    ensures ConsumeSoonestExpiring(a, u, k, now).Some? <==> LiveTotal(a, u, k, now) > 0
    ensures ConsumeSoonestExpiring(a, u, k, now).Some? ==>
              var (b, left) := ConsumeSoonestExpiring(a, u, k, now).value;
              && AccountInv(b)
              && left == LiveTotal(b, u, k, now) == LiveTotal(a, u, k, now) - 1
              && AllUnits(b) == AllUnits(a) - 1
              && (forall v, j: Consumable, t :: (v != u || j != k) ==>
                    UsableUnits(b.grants, v, j, t) == UsableUnits(a.grants, v, j, t))
              && (forall j: Consumable | j != k :: Balance(b.quota, j) == Balance(a.quota, j))
  {
    UsableUnitsSign(a.grants, u, k, now);
    var best := SoonestGrant(a.grants, u, k, now);
    if best.Some? {
      TakeFromUsable(a.grants, best.value, u, k, now);
      forall v, j: Consumable, t | v != u || j != k
        ensures UsableUnits(TakeFromGrant(a.grants, best.value), v, j, t) == UsableUnits(a.grants, v, j, t)
      {
        TakeSparesOthers(a.grants, best.value, v, j, t);
      }
    }
  }

  /**
   What is spent is a unit of that kind of that owner: of the month's allowance, or of a grant that has
   started, has not ended and is not used up. A call for offers leaves the AI uses alone, and the other way round.
   */
  lemma {:induction false} SpentUnitIsLive(a: Account, u: UserId, k: Consumable, now: int)
    requires ConsumeSoonestExpiring(a, u, k, now).Some?
    ensures var b := ConsumeSoonestExpiring(a, u, k, now).value.0;
            || (&& b.grants == a.grants
                && (k == MatchedOffer ==>
                      a.quota.freeOffersLeft > 0
                      && b.quota == a.quota.(freeOffersLeft := a.quota.freeOffersLeft - 1))
                && (k == AiOptimizerUse ==>
                      a.quota.optimizerUsesLeft > 0
                      && b.quota == a.quota.(optimizerUsesLeft := a.quota.optimizerUsesLeft - 1)))
            || exists i | 0 <= i < |a.grants| ::
                 var g := a.grants[i];
                 && b.quota == a.quota && b.grants == a.grants[i := g.(remaining := g.remaining - 1)]
                 && g.userId == u && g.kind == k && g.remaining > 0 && g.startsAt <= now < g.expiresAt
  {
    var best := SoonestGrant(a.grants, u, k, now);
    var b := ConsumeSoonestExpiring(a, u, k, now).value.0;
    if b.quota == a.quota && best.Some? {
      assert a.grants[best.value].Usable(u, k, now);
    }
  }

  /** Units of every kind are counted: those of a new grant come on top exactly while it is the owner's and runs. */
  lemma {:induction false} GrantAddsUnits(grants: seq<Grant>, g: Grant, u: UserId, k: EntitlementType, now: int)
    ensures UsableUnits([], u, k, now) == 0
    ensures UsableUnits(grants + [g], u, k, now)
            == UsableUnits(grants, u, k, now)
               + if g.userId == u && g.kind == k && g.startsAt <= now < g.expiresAt && g.remaining > 0
                 then g.remaining else 0
  {
    assert (grants + [g])[..|grants|] == grants;
  }

  /** Spending changes no row but in its count. */
  lemma {:induction false} ConsumeKeepsRows(a: Account, u: UserId, k: Consumable, now: int)
    requires ConsumeSoonestExpiring(a, u, k, now).Some?
    ensures var b := ConsumeSoonestExpiring(a, u, k, now).value.0;
            && |b.grants| == |a.grants|
            && forall i | 0 <= i < |a.grants| :: b.grants[i].(remaining := 0) == a.grants[i].(remaining := 0)
  {
  }

  /** The unit spent expires no later than any other unit the owner could have spent. */
  lemma {:induction false} ConsumeTakesSoonest(a: Account, u: UserId, k: Consumable, now: int)
    requires AccountInv(a) && now < a.quota.currentPeriodEndsAt.value
    requires ConsumeSoonestExpiring(a, u, k, now).Some?
    ensures var b := ConsumeSoonestExpiring(a, u, k, now).value.0;
            var end := a.quota.currentPeriodEndsAt.value;
            || (&& b == a.(quota := WithBalance(a.quota, k, Balance(a.quota, k) - 1))
                && Balance(a.quota, k) > 0
                && forall i | 0 <= i < |a.grants| && a.grants[i].Usable(u, k, now) :: end <= a.grants[i].expiresAt)
            || exists i | 0 <= i < |a.grants| ::
                 && a.grants[i].Usable(u, k, now)
                 && b == a.(grants := TakeFromGrant(a.grants, i))
                 && (Balance(a.quota, k) > 0 ==> a.grants[i].expiresAt < end)
                 && forall j | 0 <= j < |a.grants| && a.grants[j].Usable(u, k, now) ::
                      a.grants[i].expiresAt <= a.grants[j].expiresAt
  {
  }

  // Administrator edits of a plan.

  function Max0(n: int): int {
    if n < 0 then 0 else n
  }

  /** `updatePlan` on one balance: what was used of the previous allowance stays used of the next. */
  function Rebased(previous: int, next: int, left: int): int {
    Max0(next - Max0(previous - left))
  }

  function RebasedQuota(q: UserQuota, previous: Allowances, next: Allowances): UserQuota {
    q.(maxActiveListings := next.activeListings,
       freeOffersLeft := Rebased(previous.offers, next.offers, q.freeOffersLeft),
       optimizerUsesLeft := Rebased(previous.aiUses, next.aiUses, q.optimizerUsesLeft),
       boostCreditsLeft := Rebased(previous.boostCredits, next.boostCredits, q.boostCreditsLeft))
  }

  /** Balances stay within the new allowance and count as used what was used before, as far as it fits. */
  lemma {:induction false} RebaseCarriesUse(previous: nat, next: nat, left: nat)
    ensures 0 <= Rebased(previous, next, left) <= next
    ensures left <= previous ==>
              next - Rebased(previous, next, left) == if previous - left <= next then previous - left else next
    ensures left > previous ==> Rebased(previous, next, left) == next
  {
  }

  /** Editing a plan and editing it back restores a balance exactly when the use fitted the edited allowance. */
  lemma {:induction false} RebaseRoundTrip(previous: nat, next: nat, left: nat)
    requires left <= previous
    ensures Rebased(next, previous, Rebased(previous, next, left)) == left <==> previous - left <= next
  {
  }

  /** Each of the balances is re-based by its own allowance; what is used stays used, as far as it fits. */
  lemma {:induction false} EachBalanceIsRebased(q: UserQuota, previous: Allowances, next: Allowances)
    requires BalancesNonNegative(q)
    requires q.freeOffersLeft <= previous.offers && q.optimizerUsesLeft <= previous.aiUses
    requires q.boostCreditsLeft <= previous.boostCredits
    ensures var r := RebasedQuota(q, previous, next);
            && r == q.(maxActiveListings := next.activeListings, freeOffersLeft := r.freeOffersLeft,
                       optimizerUsesLeft := r.optimizerUsesLeft, boostCreditsLeft := r.boostCreditsLeft)
            && next.offers - r.freeOffersLeft == Least(previous.offers - q.freeOffersLeft, next.offers)
            && next.aiUses - r.optimizerUsesLeft == Least(previous.aiUses - q.optimizerUsesLeft, next.aiUses)
            && next.boostCredits - r.boostCreditsLeft
               == Least(previous.boostCredits - q.boostCreditsLeft, next.boostCredits)
  {
  }

  function Least(x: int, y: int): int {
    if x <= y then x else y
  }

  lemma {:induction false} RebaseKeepsInv(q: UserQuota, previous: Allowances, next: Allowances)
    requires QuotaInv(q)
    ensures QuotaInv(RebasedQuota(q, previous, next))
    ensures RebasedQuota(q, previous, next).currentPeriodEndsAt == q.currentPeriodEndsAt
  {
  }
}
