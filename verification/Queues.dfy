/**
 The order in which staff see submissions and support tickets:
 what was paid for counts, and so does every day of waiting.
 */
module Queues {
  import opened Wrappers
  import opened Calendar
  import opened PricingCatalog
  import opened Subscription
  import opened StableSort

  datatype Tier = Freemium | OwnerPlusTier | PremiumTier

  /** `commercialPriority`: the plan as the quota row has it, unless it has run out. */
  function CommercialPriority(quota: Option<UserQuota>, now: int): Tier {
    var active := quota.Some? && quota.value.planExpiresAt.Some? && quota.value.planExpiresAt.value > now;
    if active && quota.value.planType == Premium then PremiumTier
    else if active && quota.value.planType == OwnerPlus then OwnerPlusTier
    else Freemium
  }

  function TierOfPlan(plan: Plan): Tier {
    match plan
    case Free => Freemium
    case OwnerPlus => OwnerPlusTier
    case Premium => PremiumTier
  }

  /**
   The staff's view of an owner's tier is the plan the owner's next call
   would find, except while a bought downgrade waits to be taken over.
   */
  lemma {:induction false} TierIsCurrentPlan(quota: UserQuota, now: int, saved: PlanConfiguration)
    requires QuotaInv(quota)
    ensures CommercialPriority(Some(quota), now) == TierOfPlan(EnsureCurrentPeriod(Some(quota), now, saved).planType)
            <==> !quota.PendingDue(now)
  {
  }

  /**
   An owner who bought PREMIUM and then OWNER_PLUS for after it: when the
   first runs out staff see FREEMIUM, the next call finds OWNER_PLUS.
   */
  lemma {:induction false} DueDowngradeLooksFree(start: int, a: Allowances, saved: PlanConfiguration)
    ensures var premium := SettleSubscription(None, Premium, Monthly, start, a);
            var q := SettleSubscription(Some(premium), OwnerPlus, Monthly, start, a);
            var now := AddMonth(start);
            && QuotaInv(q) && q.PendingDue(now)
            && CommercialPriority(Some(q), now) == Freemium
            && EnsureCurrentPeriod(Some(q), now, saved).planType == OwnerPlus
  {
    var premium := SettleSubscription(None, Premium, Monthly, start, a);
    AddMonthSpan(start);
    AddMonthSpan(AddMonth(start));
    SettleKeepsInv(None, Premium, Monthly, start, a);
    SettleKeepsInv(Some(premium), OwnerPlus, Monthly, start, a);
  }

  /** Without a quota row, or with a plan that has run out, an owner counts as FREEMIUM. */
  lemma {:induction false} NoPlanIsFreemium(quota: Option<UserQuota>, now: int)
    ensures quota.None? || quota.value.planExpiresAt.None? || quota.value.planExpiresAt.value <= now ==>
              CommercialPriority(quota, now) == Freemium
  {
  }

  function TierWeight(tier: Tier): int {
    match tier
    case PremiumTier => 200
    case OwnerPlusTier => 100
    case Freemium => 0
  }

  /** Twenty points for each whole day since a moment. */
  function AgeScore(at: int, now: int): int {
    (now - at) / DAY_MS * 20
  }

  // ---- Submissions ----

  datatype Item = Item(id: string, submittedAt: int, tier: Tier)

  function Score(x: Item, now: int): int {
    TierWeight(x.tier) + AgeScore(x.submittedAt, now)
  }

  predicate ItemBefore(x: Item, y: Item, now: int) {
    Score(x, now) > Score(y, now) || (Score(x, now) == Score(y, now) && x.submittedAt < y.submittedAt)
  }

  function QueueOrder(now: int): (Item, Item) -> bool {
    (x: Item, y: Item) => ItemBefore(x, y, now)
  }

  method SortCommercialQueue(items: array<Item>, now: int)
    modifies items
    ensures items[..] == Sort(old(items[..]), QueueOrder(now))
  {
    var sorted := Sort(items[..], QueueOrder(now));
    SortHasSame(items[..], QueueOrder(now));
    forall i | 0 <= i < items.Length {
      items[i] := sorted[i];
    }
    assert items[..] == sorted;
  }

  /** The difference of two floors. */
  lemma {:induction false} TenDaysCount(at: int, other: int, now: int)
    requires at + 10 * DAY_MS <= other
    ensures AgeScore(at, now) >= AgeScore(other, now) + 200
  {
    var x, y := now - at, now - other;
    assert x / DAY_MS >= (y + 10 * DAY_MS) / DAY_MS == y / DAY_MS + 10;
  }

  /** Ten days of waiting outweigh any tier. */
  lemma {:induction false} TenDaysFirst(x: Item, y: Item, now: int)
    requires x.submittedAt + 10 * DAY_MS <= y.submittedAt
    ensures ItemBefore(x, y, now)
  {
    TenDaysCount(x.submittedAt, y.submittedAt, now);
  }

  /** Whole days since a moment. */
  function DaysWaited(at: int, now: int): int {
    (now - at) / DAY_MS
  }

  /** What a tier is worth in whole days of waiting. */
  function DaysWorth(tier: Tier): int {
    match tier
    case PremiumTier => 10
    case OwnerPlusTier => 5
    case Freemium => 0
  }

  /** PREMIUM counts as ten days of waiting, OWNER_PLUS as five; of two that count alike the earlier comes first. */
  lemma {:induction false} TierIsWorthDays(x: Item, y: Item, now: int)
    ensures var a := DaysWorth(x.tier) + DaysWaited(x.submittedAt, now);
            var b := DaysWorth(y.tier) + DaysWaited(y.submittedAt, now);
            ItemBefore(x, y, now) <==> a > b || (a == b && x.submittedAt < y.submittedAt)
  {
  }

  /** Tickets are ordered by severity first, and within one severity in the same way. */
  lemma {:induction false} TicketTierIsWorthDays(x: Ticket, y: Ticket, now: int)
    ensures var a := DaysWorth(CommercialPriority(x.quota, now)) + DaysWaited(x.createdAt, now);
            var b := DaysWorth(CommercialPriority(y.quota, now)) + DaysWaited(y.createdAt, now);
            TicketBefore(x, y, now) <==>
            if x.severity == y.severity then a > b || (a == b && x.createdAt < y.createdAt)
            else NoMilder(x.severity, y.severity)
  {
  }

  /** So among items that came in together a higher tier stands first. */
  lemma {:induction false} HigherTierFirst(x: Item, y: Item, now: int)
    requires x.submittedAt == y.submittedAt
    ensures ItemBefore(x, y, now) <==>
            (x.tier == PremiumTier && y.tier != PremiumTier) || (x.tier == OwnerPlusTier && y.tier == Freemium)
  {
  }

  /**
   The queue is the items in order, those alike as they came in; and nothing starves, because whatever
   stands ahead of an item came in less than ten days after it.
   */
  lemma {:induction false} QueueNeverStarves(items: seq<Item>, now: int)
    ensures var sorted := Sort(items, QueueOrder(now));
            && multiset(sorted) == multiset(items)
            && (forall i, j | 0 <= i < j < |sorted| ::
                  && !ItemBefore(sorted[j], sorted[i], now)
                  && sorted[i].submittedAt < sorted[j].submittedAt + 10 * DAY_MS)
  {
    var sorted := Sort(items, QueueOrder(now));
    SortOrders(items, QueueOrder(now));
    forall i, j | 0 <= i < j < |sorted|
      ensures !ItemBefore(sorted[j], sorted[i], now) && sorted[i].submittedAt < sorted[j].submittedAt + 10 * DAY_MS
    {
      assert !QueueOrder(now)(sorted[j], sorted[i]);
      if sorted[i].submittedAt >= sorted[j].submittedAt + 10 * DAY_MS {
        TenDaysFirst(sorted[j], sorted[i], now);
      }
    }
  }

  /** Items of one score and one moment keep the order in which they were read. */
  lemma {:induction false} QueueIsStable(items: seq<Item>, now: int, score: int, at: int)
    ensures var alike := (x: Item) => Score(x, now) == score && x.submittedAt == at;
            Filter(Sort(items, QueueOrder(now)), alike) == Filter(items, alike)
  {
    SortIsStable(items, QueueOrder(now), (x: Item) => Score(x, now) == score && x.submittedAt == at);
  }

  // ---- Support tickets ----

  datatype Severity = Low | Normal | High | Urgent | Critical
  datatype TicketStatus = Open | InProgress | Resolved | ClosedTicket

  datatype Ticket = Ticket(id: string, severity: Severity, status: TicketStatus, quota: Option<UserQuota>,
      createdAt: int)

  /** A filter that may be absent or may name nothing known. */
  datatype Wanted<T> = All | Only(value: T) | Unknown

  datatype TicketQuery = TicketQuery(page: Option<int>, pageSize: Option<int>, status: Wanted<TicketStatus>,
      tier: Wanted<Tier>)

  datatype QueryError = InvalidStatus | InvalidTier

  datatype Page = Page(items: seq<Ticket>, total: nat, page: int, pageSize: int)

  function SeverityWeight(s: Severity): int {
    match s
    case Critical => 5
    case Urgent => 4
    case High => 3
    case Normal => 2
    case Low => 1
  }

  function TicketScore(t: Ticket, now: int): int {
    TierWeight(CommercialPriority(t.quota, now)) + AgeScore(t.createdAt, now)
  }

  predicate TicketBefore(x: Ticket, y: Ticket, now: int) {
    if x.severity != y.severity then SeverityWeight(x.severity) > SeverityWeight(y.severity)
    else
      || TicketScore(x, now) > TicketScore(y, now)
      || (TicketScore(x, now) == TicketScore(y, now) && x.createdAt < y.createdAt)
  }

  function TicketOrder(now: int): (Ticket, Ticket) -> bool {
    (x: Ticket, y: Ticket) => TicketBefore(x, y, now)
  }

  function Min(x: int, y: int): int { if x <= y then x else y }
  function Max(x: int, y: int): int { if x <= y then y else x }

  /** A number left out, or zero, takes the default. */
  function OrDefault(n: Option<int>, default: int): int {
    if n.None? || n.value == 0 then default else n.value
  }

  /** `slice` with bounds that may lie beyond the end. */
  function Slice<T>(s: seq<T>, from: nat, to: nat): seq<T>
    requires from <= to
  {
    s[Min(from, |s|)..Min(to, |s|)]
  }

  function PageOf<T>(s: seq<T>, page: int, size: int): seq<T>
    requires page >= 1 && size >= 1
  {
    assert 0 <= (page - 1) * size <= page * size;
    Slice(s, (page - 1) * size, page * size)
  }

  predicate Selected(t: Ticket, q: TicketQuery, now: int) {
    && (q.status.Only? ==> t.status == q.status.value)
    && (q.tier.Only? ==> CommercialPriority(t.quota, now) == q.tier.value)
  }

  function Listed(tickets: seq<Ticket>, q: TicketQuery, now: int): seq<Ticket> {
    Sort(Filter(tickets, (t: Ticket) => Selected(t, q, now)), TicketOrder(now))
  }

  method GetAdminTickets(tickets: seq<Ticket>, q: TicketQuery, now: int) returns (r: Result<Page, QueryError>)
    ensures r == Err(InvalidStatus) <==> q.status.Unknown?
    ensures r == Err(InvalidTier) <==> !q.status.Unknown? && q.tier.Unknown?
    ensures r.Ok? ==>
      && 1 <= r.value.page && 1 <= r.value.pageSize <= 50
      && r.value.page == (if q.page.Some? && q.page.value >= 1 then q.page.value else 1)
      && r.value.pageSize == (if q.pageSize.None? || q.pageSize.value == 0 then 20
                              else if q.pageSize.value < 1 then 1
                              else if q.pageSize.value > 50 then 50 else q.pageSize.value)
      && r.value.items == PageOf(Listed(tickets, q, now), r.value.page, r.value.pageSize)
      && r.value.total == |Listed(tickets, q, now)|
  {
    var page := Max(1, OrDefault(q.page, 1));
    var pageSize := Min(50, Max(1, OrDefault(q.pageSize, 20)));
    if q.status.Unknown? {
      return Err(InvalidStatus);
    }
    if q.tier.Unknown? {
      return Err(InvalidTier);
    }
    var filtered := Filter(tickets, (t: Ticket) => Selected(t, q, now));
    filtered := Sort(filtered, TicketOrder(now));
    r := Ok(Page(PageOf(filtered, page, pageSize), |filtered|, page, pageSize));
  }

  /** Among tickets of one severity ten days of waiting outweigh any tier. */
  lemma {:induction false} TenDaysFirstTicket(x: Ticket, y: Ticket, now: int)
    requires x.severity == y.severity && x.createdAt + 10 * DAY_MS <= y.createdAt
    ensures TicketBefore(x, y, now)
  {
    TenDaysCount(x.createdAt, y.createdAt, now);
  }

  /** From CRITICAL over URGENT, HIGH and NORMAL down to LOW. */
  predicate NoMilder(x: Severity, y: Severity) {
    match x
    case Critical => true
    case Urgent => !y.Critical?
    case High => !y.Critical? && !y.Urgent?
    case Normal => y.Normal? || y.Low?
    case Low => y.Low?
  }

  /**
   The list holds the tickets selected, each as often as it was
   read, the severest first, and within a severity nothing starves.
   */
  lemma {:induction false} TicketsNeverStarve(tickets: seq<Ticket>, q: TicketQuery, now: int)
    ensures var listed := Listed(tickets, q, now);
            && (forall t ::
                  multiset(listed)[t] ==
                  if (q.status.Only? && t.status != q.status.value)
                     || (q.tier.Only? && CommercialPriority(t.quota, now) != q.tier.value)
                  then 0 else multiset(tickets)[t])
            && (forall i, j | 0 <= i < j < |listed| ::
                  && NoMilder(listed[i].severity, listed[j].severity)
                  && (listed[i].severity == listed[j].severity ==>
                     listed[i].createdAt < listed[j].createdAt + 10 * DAY_MS))
  {
    var selected := Filter(tickets, (t: Ticket) => Selected(t, q, now));
    var listed := Listed(tickets, q, now);
    FilterCounts(tickets, (t: Ticket) => Selected(t, q, now));
    TicketOrderIsWeak(now);
    SortOrders(selected, TicketOrder(now));
    forall i, j | 0 <= i < j < |listed|
      ensures NoMilder(listed[i].severity, listed[j].severity)
      ensures listed[i].severity == listed[j].severity ==> listed[i].createdAt < listed[j].createdAt + 10 * DAY_MS
    {
      assert !TicketOrder(now)(listed[j], listed[i]);
      if listed[i].severity == listed[j].severity && listed[i].createdAt >= listed[j].createdAt + 10 * DAY_MS {
        TenDaysFirstTicket(listed[j], listed[i], now);
      }
    }
  }

  lemma {:induction false} TicketOrderIsWeak(now: int)
    ensures StrictWeakOrder(TicketOrder(now))
  {
    forall x, y, z | TicketBefore(x, z, now) ensures TicketBefore(x, y, now) || TicketBefore(y, z, now) {
    }
  }

  /** The first `n` pages, one after the other. */
  function Pages<T>(s: seq<T>, size: int, n: nat): seq<T>
    requires size >= 1
  {
    if n == 0 then [] else Pages(s, size, n - 1) + PageOf(s, n, size)
  }

  /** Pages neither drop nor repeat: together they are the list, as far as they go. */
  lemma {:induction false} PagesJoin<T>(s: seq<T>, size: int, n: nat)
    requires size >= 1
    ensures 0 <= n * size && Pages(s, size, n) == s[..Min(n * size, |s|)]
    ensures n * size >= |s| ==> Pages(s, size, n) == s
    decreases n
  {
    if n > 0 {
      PagesJoin(s, size, n - 1);
      assert 0 <= (n - 1) * size <= n * size;
      var from, to := Min((n - 1) * size, |s|), Min(n * size, |s|);
      assert s[..from] + s[from..to] == s[..to];
    }
  }
}
