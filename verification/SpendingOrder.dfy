/**
 Spending the soonest-expiring unit first is optimal. The plan balance counts as a batch that
 expires at the period's end; the runs are of one owner's rows, with requests, new grants and lazy
 period rollovers in any order, and no plan purchase or plan edit in between.
 */
module SpendingOrder {
  import opened Wrappers
  import opened PricingCatalog
  import opened Subscription
  import opened Ledger

  datatype Event =
    | Touch(at: int)
    | Request(kind: Consumable, at: int)
    | Granted(grant: Grant)

  function At(e: Event): int {
    match e
    case Touch(at) => at
    case Request(_, at) => at
    case Granted(g) => g.startsAt
  }

  /** The clock never goes back, and grants are well formed. */
  predicate Timed(es: seq<Event>, now: int) {
    es != [] ==>
      && now <= At(es[0])
      && (es[0].Granted? ==> es[0].grant.Inv())
      && Timed(es[1..], At(es[0]))
  }

  function Ensured(a: Account, now: int, saved: PlanConfiguration): Account {
    a.(quota := EnsureCurrentPeriod(Some(a.quota), now, saved))
  }

  /** One event as the services handle it, and whether a request was served. */
  function Step(a: Account, u: UserId, e: Event, saved: PlanConfiguration): (Account, bool) {
    match e
    case Touch(at) => (Ensured(a, at, saved), false)
    case Granted(g) => (a.(grants := a.grants + [g]), false)
    case Request(k, at) =>
      var b := Ensured(a, at, saved);
      var r := ConsumeSoonestExpiring(b, u, k, at);
      if r.Some? then (r.value.0, true) else (b, false)
  }

  /** Where another policy might take the unit from. */
  datatype Source = FromPlan | FromGrant(index: nat)

  predicate CanSpend(a: Account, u: UserId, k: Consumable, now: int, s: Source) {
    match s
    case FromPlan => Balance(a.quota, k) > 0
    case FromGrant(i) => i < |a.grants| && a.grants[i].Usable(u, k, now)
  }

  function Spend(a: Account, u: UserId, k: Consumable, now: int, s: Source): Account
    requires CanSpend(a, u, k, now, s)
  {
    match s
    case FromPlan => a.(quota := WithBalance(a.quota, k, Balance(a.quota, k) - 1))
    case FromGrant(i) => a.(grants := TakeFromGrant(a.grants, i))
  }

  /** The same event under a free choice: any unit that can be spent, or none. */
  function StepBy(a: Account, u: UserId, e: Event, choice: Option<Source>, saved: PlanConfiguration): (Account, bool) {
    if e.Request? then
      var b := Ensured(a, e.at, saved);
      if choice.Some? && CanSpend(b, u, e.kind, e.at, choice.value)
      then (Spend(b, u, e.kind, e.at, choice.value), true)
      else (b, false)
    else Step(a, u, e, saved)
  }

  function One(b: bool): nat {
    if b then 1 else 0
  }

  function Served(a: Account, u: UserId, k: Consumable, es: seq<Event>, saved: PlanConfiguration): nat
    decreases |es|
  {
    if es == [] then 0
    else
      var (b, served) := Step(a, u, es[0], saved);
      One(served && es[0].kind == k) + Served(b, u, k, es[1..], saved)
  }

  function ServedBy(a: Account, u: UserId, k: Consumable, es: seq<Event>, choices: seq<Option<Source>>,
      saved: PlanConfiguration): nat
    requires |choices| == |es|
    decreases |es|
  {
    if es == [] then 0
    else
      var (b, served) := StepBy(a, u, es[0], choices[0], saved);
      One(served && es[0].kind == k) + ServedBy(b, u, k, es[1..], choices[1..], saved)
  }

  // The measure: how many units of a kind expire after an instant.

  function LaterGrants(grants: seq<Grant>, u: UserId, k: Consumable, t: int): int {
    if grants == [] then 0
    else
      var g := grants[|grants| - 1];
      LaterGrants(grants[..|grants| - 1], u, k, t)
      + if g.userId == u && g.kind == k && g.expiresAt > t then g.remaining else 0
  }

  function LaterPlan(q: UserQuota, k: Consumable, t: int): int {
    if q.currentPeriodEndsAt.Some? && q.currentPeriodEndsAt.value > t then Balance(q, k) else 0
  }

  function LaterUnits(a: Account, u: UserId, k: Consumable, t: int): int {
    LaterPlan(a.quota, k, t) + LaterGrants(a.grants, u, k, t)
  }

  predicate Started(a: Account, now: int) {
    forall i | 0 <= i < |a.grants| :: a.grants[i].startsAt <= now
  }

  lemma {:induction false} LaterGrantsFall(grants: seq<Grant>, u: UserId, k: Consumable, t: int, t': int)
    requires GrantsInv(grants) && t <= t'
    ensures 0 <= LaterGrants(grants, u, k, t') <= LaterGrants(grants, u, k, t)
  {
    if grants != [] {
      var n := |grants| - 1;
      assert GrantsInv(grants[..n]) by { assert forall i | 0 <= i < n :: grants[..n][i] == grants[i]; }
      LaterGrantsFall(grants[..n], u, k, t, t');
      assert grants[n].Inv();
    }
  }

  /** Taking a unit that expires at `e` lowers the measure exactly before `e`. */
  lemma {:induction false} TakeLowers(grants: seq<Grant>, i: nat, u: UserId, k: Consumable, t: int)
    requires i < |grants|
    ensures LaterGrants(TakeFromGrant(grants, i), u, k, t)
         == LaterGrants(grants, u, k, t)
          - One(grants[i].userId == u && grants[i].kind == k && grants[i].expiresAt > t)
  {
    var n := |grants| - 1;
    var taken := TakeFromGrant(grants, i);
    if i == n {
      assert taken[..n] == grants[..n];
    } else {
      assert taken[..n] == TakeFromGrant(grants[..n], i);
      TakeLowers(grants[..n], i, u, k, t);
    }
  }

  /** Between two instants with no expiry in between, the measure stands still. */
  lemma {:induction false} NothingExpires(grants: seq<Grant>, u: UserId, k: Consumable, t: int, t': int)
    requires GrantsInv(grants) && t <= t'
    requires forall i | 0 <= i < |grants| ::
               grants[i].userId == u && grants[i].kind == k && grants[i].expiresAt > t && grants[i].remaining > 0
               ==> grants[i].expiresAt > t'
    ensures LaterGrants(grants, u, k, t') == LaterGrants(grants, u, k, t)
  {
    if grants != [] {
      var n := |grants| - 1;
      assert forall i | 0 <= i < n :: grants[..n][i] == grants[i];
      NothingExpires(grants[..n], u, k, t, t');
      assert grants[n].Inv();
    }
  }

  lemma {:induction false} UsableAreLater(grants: seq<Grant>, u: UserId, k: Consumable, now: int)
    requires GrantsInv(grants)
    requires forall i | 0 <= i < |grants| :: grants[i].startsAt <= now
    ensures LaterGrants(grants, u, k, now) == UsableUnits(grants, u, k, now)
  {
    if grants != [] {
      var n := |grants| - 1;
      assert forall i | 0 <= i < n :: grants[..n][i] == grants[i];
      UsableAreLater(grants[..n], u, k, now);
      assert grants[n].Inv();
    }
  }

  /** A served request costs the code nothing after the unit's expiry, and before it every live unit is still ahead. */
  lemma {:induction false} StepOnRequest(a: Account, u: UserId, k: Consumable, now: int, t: int)
    requires AccountInv(a) && Started(a, now) && now < a.quota.currentPeriodEndsAt.value && now <= t
    ensures var r := ConsumeSoonestExpiring(a, u, k, now);
            && (r.Some? <==> LaterUnits(a, u, k, now) > 0)
            && (r.Some? ==>
                  || LaterUnits(r.value.0, u, k, t) + 1 == LaterUnits(a, u, k, now)
                  || LaterUnits(r.value.0, u, k, t) == LaterUnits(a, u, k, t))
  {
    var r := ConsumeSoonestExpiring(a, u, k, now);
    ConsumeConserves(a, u, k, now);
    UsableAreLater(a.grants, u, k, now);
    if r.Some? {
      var best := SoonestGrant(a.grants, u, k, now);
      var end := a.quota.currentPeriodEndsAt.value;
      if best.Some? && (Balance(a.quota, k) <= 0 || a.grants[best.value].expiresAt < end) {
        TakeLowers(a.grants, best.value, u, k, t);
        if t < a.grants[best.value].expiresAt {
          NothingExpires(a.grants, u, k, now, t);
        }
      } else if t < end {
        NothingExpires(a.grants, u, k, now, t);
      }
    }
  }

  /** Whatever unit another policy spends, it had that unit among its live ones. */
  lemma {:induction false} SpendingCosts(a: Account, u: UserId, k: Consumable, now: int, s: Source, t: int)
    requires AccountInv(a) && Started(a, now) && now < a.quota.currentPeriodEndsAt.value && now <= t
    requires CanSpend(a, u, k, now, s)
    ensures var b := Spend(a, u, k, now, s);
            && 1 + LaterUnits(b, u, k, t) <= LaterUnits(a, u, k, now)
            && LaterUnits(b, u, k, t) <= LaterUnits(a, u, k, t)
  {
    match s
    case FromPlan =>
      LaterGrantsFall(a.grants, u, k, now, t);
    case FromGrant(i) =>
      TakeLowers(a.grants, i, u, k, t);
      if t < a.grants[i].expiresAt {
        LaterGrantsFall(a.grants, u, k, now, t);
      } else {
        TakeLowers(a.grants, i, u, k, now);
        TakeKeepsGrants(a.grants, i);
        LaterGrantsFall(TakeFromGrant(a.grants, i), u, k, now, t);
      }
  }

  lemma {:induction false} TakeKeepsGrants(grants: seq<Grant>, i: nat)
    requires GrantsInv(grants) && i < |grants| && grants[i].remaining > 0
    ensures GrantsInv(TakeFromGrant(grants, i))
  {
  }

  /** Two accounts that differ only in what is left of each batch. */
  predicate SameBatches(a: Account, b: Account) {
    && a.quota.(freeOffersLeft := 0, optimizerUsesLeft := 0) == b.quota.(freeOffersLeft := 0, optimizerUsesLeft := 0)
    && |a.grants| == |b.grants|
    && forall i | 0 <= i < |a.grants| :: a.grants[i].(remaining := 0) == b.grants[i].(remaining := 0)
  }

  predicate Comparable(a: Account, b: Account, now: int) {
    AccountInv(a) && AccountInv(b) && SameBatches(a, b) && Started(a, now) && Started(b, now)
  }

  /** The code, `lead` served requests ahead, makes that up at every horizon. */
  ghost predicate Ahead(a: Account, b: Account, u: UserId, k: Consumable, now: int, lead: int) {
    forall t | now <= t :: lead + LaterUnits(a, u, k, t) >= LaterUnits(b, u, k, t)
  }

  lemma {:induction false} EnsuredStaysAhead(a: Account, b: Account, u: UserId, k: Consumable, now: int, at: int,
      lead: int, saved: PlanConfiguration)
    requires Comparable(a, b, now) && now <= at && Ahead(a, b, u, k, now, lead)
    ensures var a', b' := Ensured(a, at, saved), Ensured(b, at, saved);
            && Comparable(a', b', at) && Ahead(a', b', u, k, at, lead)
            && at < a'.quota.currentPeriodEndsAt.value && at < b'.quota.currentPeriodEndsAt.value
  {
    EnsureKeepsInv(Some(a.quota), at, saved);
    EnsureKeepsInv(Some(b.quota), at, saved);
    EnsureLeavesLivePeriod(Some(a.quota), at, saved);
    EnsureLeavesLivePeriod(Some(b.quota), at, saved);
    EnsureResets(a.quota, at, saved);
    EnsureResets(b.quota, at, saved);
    var a', b' := Ensured(a, at, saved), Ensured(b, at, saved);
    forall t | at <= t
      ensures lead + LaterUnits(a', u, k, t) >= LaterUnits(b', u, k, t)
    {
      assert lead + LaterUnits(a, u, k, t) >= LaterUnits(b, u, k, t);
    }
  }

  lemma {:induction false} GrantedStaysAhead(a: Account, b: Account, u: UserId, k: Consumable, now: int, g: Grant,
      lead: int)
    requires Comparable(a, b, now) && now <= g.startsAt && g.Inv() && Ahead(a, b, u, k, now, lead)
    ensures var a', b' := a.(grants := a.grants + [g]), b.(grants := b.grants + [g]);
            Comparable(a', b', g.startsAt) && Ahead(a', b', u, k, g.startsAt, lead)
  {
    var a', b' := a.(grants := a.grants + [g]), b.(grants := b.grants + [g]);
    assert a'.grants[..|a.grants|] == a.grants && b'.grants[..|b.grants|] == b.grants;
    forall t | g.startsAt <= t
      ensures lead + LaterUnits(a', u, k, t) >= LaterUnits(b', u, k, t)
    {
      assert lead + LaterUnits(a, u, k, t) >= LaterUnits(b, u, k, t);
    }
  }

  lemma {:induction false} SpendKeepsBatches(a: Account, u: UserId, k: Consumable, now: int, s: Source)
    requires AccountInv(a) && Started(a, now) && CanSpend(a, u, k, now, s)
    ensures var b := Spend(a, u, k, now, s); AccountInv(b) && SameBatches(a, b) && Started(b, now)
  {
  }

  lemma {:induction false} ConsumeIsASpend(a: Account, u: UserId, k: Consumable, now: int)
    requires AccountInv(a) && ConsumeSoonestExpiring(a, u, k, now).Some?
    ensures exists s ::
              CanSpend(a, u, k, now, s) && ConsumeSoonestExpiring(a, u, k, now).value.0 == Spend(a, u, k, now, s)
  {
    var best := SoonestGrant(a.grants, u, k, now);
    var end := if a.quota.currentPeriodEndsAt.Some? then a.quota.currentPeriodEndsAt.value else now;
    if best.Some? && (Balance(a.quota, k) <= 0 || a.grants[best.value].expiresAt < end) {
      assert CanSpend(a, u, k, now, FromGrant(best.value));
    } else {
      assert CanSpend(a, u, k, now, FromPlan);
    }
  }

  /** Units of one kind are not touched by a request for the other. */
  lemma {:induction false} OtherKindUntouched(a: Account, u: UserId, j: Consumable, now: int, s: Source, k: Consumable,
      t: int)
    requires CanSpend(a, u, j, now, s) && j != k
    ensures LaterUnits(Spend(a, u, j, now, s), u, k, t) == LaterUnits(a, u, k, t)
  {
    if s.FromGrant? {
      TakeLowers(a.grants, s.index, u, k, t);
    }
  }

  /** What the code's step leaves of an account that has been rolled over. */
  lemma {:induction false} ConsumeKeepsBatches(a: Account, u: UserId, j: Consumable, at: int)
    requires AccountInv(a) && Started(a, at) && ConsumeSoonestExpiring(a, u, j, at).Some?
    ensures var b := ConsumeSoonestExpiring(a, u, j, at).value.0;
            && AccountInv(b) && SameBatches(a, b) && Started(b, at)
            && (forall k, t | k != j :: LaterUnits(b, u, k, t) == LaterUnits(a, u, k, t))
  {
    ConsumeIsASpend(a, u, j, at);
    var b := ConsumeSoonestExpiring(a, u, j, at).value.0;
    var src :| CanSpend(a, u, j, at, src) && b == Spend(a, u, j, at, src);
    SpendKeepsBatches(a, u, j, at, src);
    forall k, t | k != j ensures LaterUnits(b, u, k, t) == LaterUnits(a, u, k, t) {
      OtherKindUntouched(a, u, j, at, src, k, t);
    }
  }

  lemma {:induction false} BatchesMatch(a: Account, b: Account, c: Account, d: Account)
    requires SameBatches(a, b) && SameBatches(a, c) && SameBatches(b, d)
    ensures SameBatches(c, d)
  {
    forall i | 0 <= i < |c.grants| ensures c.grants[i].(remaining := 0) == d.grants[i].(remaining := 0) {
      assert a.grants[i].(remaining := 0) == b.grants[i].(remaining := 0);
    }
  }

  lemma {:induction false} SameBatchesRefl(a: Account)
    ensures SameBatches(a, a)
  {
  }

  /** After the request both accounts are still comparable. */
  lemma {:induction false} RequestStaysComparable(a: Account, b: Account, u: UserId, j: Consumable, at: int,
      choice: Option<Source>)
    requires Comparable(a, b, at)
    ensures var c := ConsumeSoonestExpiring(a, u, j, at);
            var a' := if c.Some? then c.value.0 else a;
            var b' := if choice.Some? && CanSpend(b, u, j, at, choice.value) then Spend(b, u, j, at, choice.value)
              else b;
            Comparable(a', b', at)
  {
    var c := ConsumeSoonestExpiring(a, u, j, at);
    var a' := if c.Some? then c.value.0 else a;
    var b' := if choice.Some? && CanSpend(b, u, j, at, choice.value) then Spend(b, u, j, at, choice.value) else b;
    SameBatchesRefl(a);
    SameBatchesRefl(b);
    if c.Some? {
      ConsumeKeepsBatches(a, u, j, at);
    }
    if choice.Some? && CanSpend(b, u, j, at, choice.value) {
      SpendKeepsBatches(b, u, j, at, choice.value);
    }
    BatchesMatch(a, b, a', b');
  }

  /** A request for the other kind moves neither measure. */
  lemma {:induction false} OtherRequestStaysAhead(a: Account, b: Account, u: UserId, k: Consumable, j: Consumable,
      at: int, choice: Option<Source>, lead: int)
    requires Comparable(a, b, at) && Ahead(a, b, u, k, at, lead) && j != k
    ensures var c := ConsumeSoonestExpiring(a, u, j, at);
            var a' := if c.Some? then c.value.0 else a;
            var b' := if choice.Some? && CanSpend(b, u, j, at, choice.value) then Spend(b, u, j, at, choice.value)
              else b;
            Ahead(a', b', u, k, at, lead)
  {
    var c := ConsumeSoonestExpiring(a, u, j, at);
    var a' := if c.Some? then c.value.0 else a;
    var b' := if choice.Some? && CanSpend(b, u, j, at, choice.value) then Spend(b, u, j, at, choice.value) else b;
    if c.Some? {
      ConsumeKeepsBatches(a, u, j, at);
    }
    forall t | at <= t ensures lead + LaterUnits(a', u, k, t) >= LaterUnits(b', u, k, t) {
      assert lead + LaterUnits(a, u, k, t) >= LaterUnits(b, u, k, t);
      if choice.Some? && CanSpend(b, u, j, at, choice.value) {
        OtherKindUntouched(b, u, j, at, choice.value, k, t);
      }
    }
  }

  /** A request for the kind that counts: whoever serves it pays for it at the right horizons. */
  lemma {:induction false} SameRequestStaysAhead(a: Account, b: Account, u: UserId, k: Consumable, at: int,
      choice: Option<Source>, lead: int)
    requires Comparable(a, b, at) && Ahead(a, b, u, k, at, lead)
    requires at < a.quota.currentPeriodEndsAt.value && at < b.quota.currentPeriodEndsAt.value
    ensures var c := ConsumeSoonestExpiring(a, u, k, at);
            var a' := if c.Some? then c.value.0 else a;
            var r := choice.Some? && CanSpend(b, u, k, at, choice.value);
            var b' := if r then Spend(b, u, k, at, choice.value) else b;
            Ahead(a', b', u, k, at, lead + One(c.Some?) - One(r))
  {
    var c := ConsumeSoonestExpiring(a, u, k, at);
    var a' := if c.Some? then c.value.0 else a;
    var r := choice.Some? && CanSpend(b, u, k, at, choice.value);
    var b' := if r then Spend(b, u, k, at, choice.value) else b;
    forall t | at <= t ensures lead + One(c.Some?) - One(r) + LaterUnits(a', u, k, t) >= LaterUnits(b', u, k, t) {
      RequestAtHorizon(a, b, u, k, at, choice, lead, t);
    }
  }

  lemma {:induction false} RequestStaysAhead(a: Account, b: Account, u: UserId, k: Consumable, e: Event,
      choice: Option<Source>, now: int, lead: int, saved: PlanConfiguration)
    requires e.Request? && Comparable(a, b, now) && now <= e.at && Ahead(a, b, u, k, now, lead)
    ensures var (a', s) := Step(a, u, e, saved);
            var (b', r) := StepBy(b, u, e, choice, saved);
            Comparable(a', b', e.at) && Ahead(a', b', u, k, e.at, lead + One(s && e.kind == k) - One(r && e.kind == k))
  {
    EnsuredStaysAhead(a, b, u, k, now, e.at, lead, saved);
    var a1, b1 := Ensured(a, e.at, saved), Ensured(b, e.at, saved);
    RequestStaysComparable(a1, b1, u, e.kind, e.at, choice);
    if e.kind == k {
      SameRequestStaysAhead(a1, b1, u, k, e.at, choice, lead);
    } else {
      OtherRequestStaysAhead(a1, b1, u, k, e.kind, e.at, choice, lead);
    }
  }

  lemma {:induction false} RequestAtHorizon(a: Account, b: Account, u: UserId, k: Consumable, at: int,
      choice: Option<Source>, lead: int, t: int)
    requires Comparable(a, b, at) && Ahead(a, b, u, k, at, lead) && at <= t
    requires at < a.quota.currentPeriodEndsAt.value && at < b.quota.currentPeriodEndsAt.value
    ensures var c := ConsumeSoonestExpiring(a, u, k, at);
            var a' := if c.Some? then c.value.0 else a;
            var r := choice.Some? && CanSpend(b, u, k, at, choice.value);
            var b' := if r then Spend(b, u, k, at, choice.value) else b;
            lead + One(c.Some?) + LaterUnits(a', u, k, t) >= One(r) + LaterUnits(b', u, k, t)
  {
    StepOnRequest(a, u, k, at, t);
    LaterGrantsFall(a.grants, u, k, at, t);
    LaterGrantsFall(b.grants, u, k, at, t);
    assert lead + LaterUnits(a, u, k, at) >= LaterUnits(b, u, k, at);
    assert lead + LaterUnits(a, u, k, t) >= LaterUnits(b, u, k, t);
    if choice.Some? && CanSpend(b, u, k, at, choice.value) {
      SpendingCosts(b, u, k, at, choice.value, t);
    }
  }

  function Horizon(a: Account): int
    requires a.quota.currentPeriodEndsAt.Some?
  {
    LastExpiry(a.grants, a.quota.currentPeriodEndsAt.value)
  }

  function LastExpiry(grants: seq<Grant>, t: int): (r: int)
    ensures r >= t && forall i | 0 <= i < |grants| :: grants[i].expiresAt <= r
  {
    if grants == [] then t
    else
      var n := |grants| - 1;
      LastExpiry(grants[..n], if grants[n].expiresAt > t then grants[n].expiresAt else t)
  }

  lemma {:induction false} NothingAfterHorizon(grants: seq<Grant>, u: UserId, k: Consumable, t: int)
    requires forall i | 0 <= i < |grants| :: grants[i].expiresAt <= t
    ensures LaterGrants(grants, u, k, t) == 0
  {
    if grants != [] {
      NothingAfterHorizon(grants[..|grants| - 1], u, k, t);
    }
  }

  lemma {:induction false} LeadIsKept(a: Account, b: Account, u: UserId, k: Consumable, es: seq<Event>,
      choices: seq<Option<Source>>, now: int, lead: int, saved: PlanConfiguration)
    requires |choices| == |es| && Timed(es, now)
    requires Comparable(a, b, now) && Ahead(a, b, u, k, now, lead)
    ensures lead + Served(a, u, k, es, saved) >= ServedBy(b, u, k, es, choices, saved)
    decreases |es|
  {
    if es == [] {
      var h := LastExpiry(a.grants, if now > Horizon(b) then now else Horizon(b));
      NothingAfterHorizon(a.grants, u, k, h);
      LaterGrantsFall(b.grants, u, k, h, h);
      assert lead + LaterUnits(a, u, k, h) >= LaterUnits(b, u, k, h);
      assert a.quota.currentPeriodEndsAt == b.quota.currentPeriodEndsAt;
    } else {
      var e := es[0];
      var (a', s) := Step(a, u, e, saved);
      var (b', r) := StepBy(b, u, e, choices[0], saved);
      match e {
        case Touch(at) => EnsuredStaysAhead(a, b, u, k, now, at, lead, saved);
        case Granted(g) => GrantedStaysAhead(a, b, u, k, now, g, lead);
        case Request(_, _) => RequestStaysAhead(a, b, u, k, e, choices[0], now, lead, saved);
      }
      var lead' := lead + One(s && e.kind == k) - One(r && e.kind == k);
      LeadIsKept(a', b', u, k, es[1..], choices[1..], At(e), lead', saved);
    }
  }

  /** No choice of units serves more requests of a kind than the code's. */
  lemma {:induction false} SoonestFirstIsOptimal(a: Account, u: UserId, k: Consumable, es: seq<Event>,
      choices: seq<Option<Source>>, now: int, saved: PlanConfiguration)
    requires AccountInv(a) && Started(a, now) && Timed(es, now)
    requires |choices| == |es|
    ensures Served(a, u, k, es, saved) >= ServedBy(a, u, k, es, choices, saved)
  {
    LeadIsKept(a, a, u, k, es, choices, now, 0, saved);
  }
}
