/** Payment transactions and the one database transaction that settles a successful payment. */
module Settlement {
  import opened Wrappers
  import opened Calendar
  import opened PricingCatalog
  import opened Subscription
  import opened Ledger
  import opened Boosts

  datatype PaymentStatus = Pending | Success | Failed

  datatype Transaction = Transaction(
    userId: UserId,
    amount: real,
    currency: string,
    paymentType: PaymentType,
    targetPropertyId: Option<PropertyId>,
    catalogSnapshot: Option<Snapshot>,
    status: PaymentStatus,
    providerTransactionId: Option<string>,
    paidAt: Option<int>)

  /** The tables the quota and payment services share. */
  datatype Rows = Rows(
    quotas: map<UserId, UserQuota>,
    grants: seq<Grant>,
    boosts: BoostRows,
    transactions: map<OrderId, Transaction>,
    plans: PlanConfiguration,
    products: map<PaymentType, ProductOverride>)

  function QuotaRow(rows: Rows, u: UserId): Option<UserQuota> {
    if u in rows.quotas then Some(rows.quotas[u]) else None
  }

  /** The amount a callback reports; `Missing` when the field is absent. */
  datatype Cents = Missing | NotANumber | Cents(n: int)

  /** What a gateway says was paid; a pass that only asks for the state of an order reports nothing. */
  datatype Report = Report(cents: Cents, currency: Option<string>)

  const NO_REPORT := Report(Missing, None)

  /** `Math.round` of the stored amount in cents. */
  function ExpectedCents(amount: real): int {
    (amount * 100.0 + 0.5).Floor
  }

  predicate Mismatch(t: Transaction, r: Report) {
    r != NO_REPORT && (r.cents != Cents(ExpectedCents(t.amount)) || r.currency != Some(t.currency))
  }

  /** What a settlement did to the paying user's entitlements. */
  datatype Effect = NoEffect | PlanChanged | GrantCreated | CampaignCreated

  datatype Settled =
    | Ignored              // no such transaction, or it is settled already
    | MarkedFailed
    | Refused              // an exception rolled the database transaction back
    | Paid(effect: Effect)

  function ProductFor(rows: Rows, t: Transaction, settlesAs: PaymentType): Snapshot {
    if t.catalogSnapshot.Some? then t.catalogSnapshot.value
    else
      var product := ResolvedProduct(rows.products, settlesAs);
      Snapshot(product, if product.planType.Some? then Some(PlanAllowances(rows.plans, product.planType.value))
        else None)
  }

  /** The entitlement a claimed payment buys, or None when the code throws. */
  function Grants(rows: Rows, order: OrderId, u: UserId, paymentType: PaymentType, target: Option<PropertyId>,
      s: Snapshot, paidAt: int): (r: Option<(Rows, Effect)>)
    ensures r.Some? ==> r.value.1 != NoEffect && r.value.0.transactions == rows.transactions
  {
    var p := s.product;
    match p.kind
    case SUBSCRIPTION =>
      if p.billing == OneTime || p.planType.None? then None
      else
        var a := if s.planAllowances.Some? then s.planAllowances.value
          else PlanAllowances(rows.plans, p.planType.value);
        Some((rows.(quotas := rows.quotas[u :=
          SettleSubscription(QuotaRow(rows, u), p.planType.value, p.billing, paidAt, a)]), PlanChanged))
    case ENTITLEMENT =>
      if p.entitlementType.None? || p.validityDays == 0 || p.quantity == 0 then None
      else
        var quantity := if paymentType == SingleOffer then 1 else p.quantity;
        var g := Grant(u, Some(order), p.entitlementType.value, quantity, quantity, paidAt,
          AddDays(paidAt, p.validityDays));
        Some((rows.(grants := rows.grants + [g]), GrantCreated))
    case BOOST =>
      if target.None? || p.durationDays == 0 then None
      else if target.value !in rows.boosts.listings || rows.boosts.listings[target.value].ownerId != u then None
      else Some((rows.(boosts := AddCampaign(rows.boosts, target.value, u, Some(order), p.durationDays, paidAt)),
        CampaignCreated))
  }

  /** What happens once a pending order is claimed: all of it, or on an exception nothing. */
  function Fulfil(rows: Rows, order: OrderId, u: UserId, paymentType: PaymentType, transactionId: string,
      paidAt: int): (Rows, Settled)
    requires order in rows.transactions
  {
    var t := rows.transactions[order];
    var claimed := rows.(transactions := rows.transactions[order :=
                     t.(status := Success, providerTransactionId := Some(transactionId), paidAt := Some(paidAt))]);
    match SettlesAs(paymentType)
    case None => (claimed, Paid(NoEffect))
    case Some(settlesAs) =>
      match Grants(claimed, order, u, paymentType, t.targetPropertyId, ProductFor(rows, t, settlesAs), paidAt)
      case None => (rows, Refused)
      case Some(done) => (done.0, Paid(done.1))
  }

  /** `processSuccessfulPayment` as one atomic step. */
  function Settle(rows: Rows, order: OrderId, u: UserId, paymentType: PaymentType, transactionId: string,
      report: Report, paidAt: int): (Rows, Settled)
  {
    if order !in rows.transactions || rows.transactions[order].status != Pending then (rows, Ignored)
    else
      var t := rows.transactions[order];
      if Mismatch(t, report) then
        (rows.(transactions := rows.transactions[order :=
          t.(status := Failed, providerTransactionId := Some(transactionId))]), MarkedFailed)
      else Fulfil(rows, order, u, paymentType, transactionId, paidAt)
  }

  datatype WebhookResult = WebhookResult(
    isValid: bool,
    success: bool,
    isFinal: bool,
    userId: Option<UserId>,
    paymentType: Option<PaymentType>,
    transactionId: string,
    providerOrderId: Option<OrderId>,
    report: Report)

  /**
   `handleWebhook`: the stored transaction, when there is one,
   overrides what the callback says about user and product.
   */
  function HandleWebhook(rows: Rows, w: WebhookResult, now: int): (Rows, Settled) {
    if !w.isValid then (rows, Refused)
    else
      var saved := w.providerOrderId.Some? && w.providerOrderId.value in rows.transactions;
      var u := if saved then Some(rows.transactions[w.providerOrderId.value].userId) else w.userId;
      var paymentType := if saved then Some(rows.transactions[w.providerOrderId.value].paymentType) else w.paymentType;
      if w.success && u.Some? && paymentType.Some? then
        if w.providerOrderId.None? then (rows, Ignored)
        else Settle(rows, w.providerOrderId.value, u.value, paymentType.value, w.transactionId, w.report, now)
      else if w.isFinal && saved && rows.transactions[w.providerOrderId.value].status == Pending then
        var order := w.providerOrderId.value;
        (rows.(transactions := rows.transactions[order :=
           rows.transactions[order].(status := Failed, providerTransactionId := Some(w.transactionId))]), MarkedFailed)
      else (rows, Ignored)
  }

  /** What the gateway answered for each pending order a pass asked about. */
  datatype Answer = Answer(order: OrderId, transactionId: Option<string>, at: int)

  /** The settling half of the hourly pass, over the orders its query returned; an exception ends it. */
  function SettlePending(rows: Rows, answers: seq<Answer>): Rows
    decreases |answers|
  {
    if answers == [] then rows
    else
      var (r, s) := SettleAnswer(rows, answers[0]);
      if s.Refused? then r else SettlePending(r, answers[1..])
  }

  function SettleAnswer(rows: Rows, a: Answer): (Rows, Settled) {
    if a.transactionId.Some? && a.order in rows.transactions then
      var t := rows.transactions[a.order];
      Settle(rows, a.order, t.userId, t.paymentType, a.transactionId.value, NO_REPORT, a.at)
    else (rows, Ignored)
  }

  // What a settlement means.

  function Status(rows: Rows, order: OrderId): Option<PaymentStatus> {
    if order in rows.transactions then Some(rows.transactions[order].status) else None
  }

  /** Claiming an order writes its own row and no other. */
  lemma {:induction false} FulfilClaims(rows: Rows, order: OrderId, u: UserId, paymentType: PaymentType, id: string,
      paidAt: int)
    requires order in rows.transactions
    ensures var (r, s) := Fulfil(rows, order, u, paymentType, id, paidAt);
            && (s.Refused? || s.Paid?)
            && (s.Refused? ==> r == rows)
            && (s.Paid? ==>
                  r.transactions == rows.transactions[order :=
                    rows.transactions[order].(status := Success, providerTransactionId := Some(id),
                      paidAt := Some(paidAt))])
            && (s == Paid(NoEffect) ==> r.(transactions := rows.transactions) == rows)
  {
  }

  /** A settled order never changes state, whatever is reported later. */
  lemma {:induction false} SettledIsTerminal(rows: Rows, order: OrderId, u: UserId, paymentType: PaymentType,
      id: string, report: Report, paidAt: int, other: OrderId)
    requires other in rows.transactions
    ensures var r := Settle(rows, order, u, paymentType, id, report, paidAt).0;
            && other in r.transactions
            && (rows.transactions[other].status != Pending ==> r.transactions[other] == rows.transactions[other])
            && (other != order ==> r.transactions[other] == rows.transactions[other])
  {
    if order in rows.transactions {
      FulfilClaims(rows, order, u, paymentType, id, paidAt);
    }
  }

  /** What a gateway reports is the amount of the order, to the nearest cent, in its currency; or it reports nothing. */
  predicate AgreesWith(r: Report, t: Transaction) {
    || (r.cents.Missing? && r.currency.None?)
    || (&& r.cents.Cents? && r.cents.n as real - 0.5 <= t.amount * 100.0 < r.cents.n as real + 0.5
        && r.currency == Some(t.currency))
  }

  lemma {:induction false} MismatchIsDisagreement(t: Transaction, r: Report)
    ensures Mismatch(t, r) <==> !AgreesWith(r, t)
  {
    var x := t.amount * 100.0 + 0.5;
    assert x.Floor as real <= x < x.Floor as real + 1.0;
  }

  /** A reported amount or currency that differs grants nothing and fails the order for good. */
  lemma {:induction false} MismatchGrantsNothing(rows: Rows, order: OrderId, u: UserId, paymentType: PaymentType,
      id: string, report: Report, paidAt: int)
    requires order in rows.transactions && !AgreesWith(report, rows.transactions[order])
    ensures var (r, s) := Settle(rows, order, u, paymentType, id, report, paidAt);
            && !s.Paid?
            && r.(transactions := rows.transactions) == rows
            && r.transactions[order].status == if rows.transactions[order].status == Pending then Failed
               else rows.transactions[order].status
  {
    MismatchIsDisagreement(rows.transactions[order], report);
  }

  /** Value moves only together with the one change of the order from pending to success. */
  lemma {:induction false} ValueMeansClaim(rows: Rows, order: OrderId, u: UserId, paymentType: PaymentType, id: string,
      report: Report, paidAt: int)
    ensures var (r, s) := Settle(rows, order, u, paymentType, id, report, paidAt);
            && (s.Paid? <==> Status(rows, order) == Some(Pending) && Status(r, order) == Some(Success))
            && (!s.Paid? || s.effect == NoEffect ==> r.(transactions := rows.transactions) == rows)
            && (s.Refused? || s.Ignored? ==> r == rows)
            && (s.MarkedFailed? <==>
                  Status(rows, order) == Some(Pending) && !AgreesWith(report, rows.transactions[order]))
            && (s.Paid? ==>
                  && r.transactions[order].paidAt == Some(paidAt)
                  && AgreesWith(report, rows.transactions[order]))
  {
    if order in rows.transactions {
      MismatchIsDisagreement(rows.transactions[order], report);
      FulfilClaims(rows, order, u, paymentType, id, paidAt);
    }
  }

  /** The campaign is on a listing of its buyer, which is boosted until the campaign ends. */
  predicate OnOwnListing(rows: Rows, r: Rows, c: Campaign, u: UserId) {
    && c.propertyId in rows.boosts.listings && rows.boosts.listings[c.propertyId].ownerId == u
    && r.boosts.listings == rows.boosts.listings[c.propertyId :=
         rows.boosts.listings[c.propertyId].(isBoosted := true, boostedUntil := Some(c.endsAt))]
  }

  /** Exactly one entitlement is given, to the paying user, and nothing else moves. */
  lemma {:induction false} PaidGivesOneEntitlement(rows: Rows, order: OrderId, u: UserId, paymentType: PaymentType,
      id: string, report: Report, paidAt: int)
    requires Settle(rows, order, u, paymentType, id, report, paidAt).1.Paid?
    ensures var (r, s) := Settle(rows, order, u, paymentType, id, report, paidAt);
            var n, m := |rows.grants|, |rows.boosts.campaigns|;
            && (s.effect != PlanChanged ==> r.quotas == rows.quotas)
            && (s.effect != GrantCreated ==> r.grants == rows.grants)
            && (s.effect != CampaignCreated ==> r.boosts == rows.boosts)
            && (s.effect == PlanChanged ==>
               r.quotas == rows.quotas[u := r.quotas[u]] && r.quotas[u].planExpiresAt != None)
            && (s.effect == GrantCreated ==>
                  && |r.grants| == n + 1 && r.grants[..n] == rows.grants
                  && r.grants[n].Inv() && r.grants[n].userId == u
                  && r.grants[n].remaining == r.grants[n].granted > 0
                  && r.grants[n].startsAt == paidAt
                  && r.grants[n].paymentTransaction == Some(order))
            && (s.effect == CampaignCreated ==>
                  && |r.boosts.campaigns| == m + 1 && r.boosts.campaigns[..m] == rows.boosts.campaigns
                  && r.boosts.campaigns[m].paymentTransaction == Some(order)
                  && r.boosts.campaigns[m].userId == u && OnOwnListing(rows, r, r.boosts.campaigns[m], u)
                  && rows.transactions[order].targetPropertyId == Some(r.boosts.campaigns[m].propertyId))
  {
  }

  /**
   A paid plan lasts the time that was paid for: behind the live plan where that is the dearer one, as its
   continuation where it is the same, and otherwise from the payment on, with a month's allowances unused.
   */
  predicate PlanGiven(before: Option<UserQuota>, after: UserQuota, plan: PaidPlan, billing: Billing, a: Allowances,
      paidAt: int)
  {
    if before.Some? && before.value.planExpiresAt.Some? && before.value.planExpiresAt.value > paidAt
       && (before.value.planType == plan || before.value.planType == Premium)
    then
      var q, from := before.value, before.value.planExpiresAt.value;
      if q.planType == plan then
        && after.planExpiresAt.Some? && Lasts(billing, from, after.planExpiresAt.value)
        && after == q.(planExpiresAt := after.planExpiresAt, billingInterval := Some(billing))
      else
        && after.pendingPlanExpiresAt.Some? && Lasts(billing, from, after.pendingPlanExpiresAt.value)
        && after == q.(pendingPlanType := Some(plan), pendingBillingInterval := Some(billing),
                       pendingPlanStartsAt := Some(from), pendingPlanExpiresAt := after.pendingPlanExpiresAt)
    else
      && after.planType == plan && after.billingInterval == Some(billing)
      && after.planExpiresAt.Some? && Lasts(billing, paidAt, after.planExpiresAt.value)
      && after.currentPeriodStartsAt == Some(paidAt) && after.currentPeriodEndsAt == Some(AddMonth(paidAt))
      && Full(after, a)
  }

  lemma {:induction false} SettlingGivesPlan(before: Option<UserQuota>, plan: PaidPlan, billing: Billing, paidAt: int,
      a: Allowances)
    ensures PlanGiven(before, SettleSubscription(before, plan, billing, paidAt, a), plan, billing, a, paidAt)
  {
    AddYearSpan(paidAt);
    AddMonthSpan(paidAt);
    if before.Some? && before.value.planExpiresAt.Some? {
      AddYearSpan(before.value.planExpiresAt.value);
      AddMonthSpan(before.value.planExpiresAt.value);
    }
  }

  /**
   What is given is what was bought: the plan, for the time paid for;
   the kind, number and validity of units; the days of boost.
   */
  lemma {:induction false} PaidGivesWhatWasBought(rows: Rows, order: OrderId, u: UserId, paymentType: PaymentType,
      id: string, report: Report, paidAt: int)
    requires Settle(rows, order, u, paymentType, id, report, paidAt).1.Paid?
    requires Settle(rows, order, u, paymentType, id, report, paidAt).1.effect != NoEffect
    ensures SettlesAs(paymentType).Some?
    ensures var (r, s) := Settle(rows, order, u, paymentType, id, report, paidAt);
            var sold := ProductFor(rows, rows.transactions[order], SettlesAs(paymentType).value);
            var p := sold.product;
            match p.kind
            case SUBSCRIPTION =>
              && s.effect == PlanChanged && p.planType.Some? && p.billing != OneTime && u in r.quotas
              && PlanGiven(QuotaRow(rows, u), r.quotas[u], p.planType.value, p.billing,
                           if sold.planAllowances.Some? then sold.planAllowances.value
                           else PlanAllowances(rows.plans, p.planType.value), paidAt)
            case ENTITLEMENT =>
              && s.effect == GrantCreated && |r.grants| == |rows.grants| + 1
              && var g := r.grants[|rows.grants|];
                 && p.entitlementType == Some(g.kind)
                 && g.granted == (if paymentType == SingleOffer then 1 else p.quantity)
                 && g.expiresAt == AddDays(g.startsAt, p.validityDays)
            case BOOST =>
              && s.effect == CampaignCreated && |r.boosts.campaigns| == |rows.boosts.campaigns| + 1
              && var c := r.boosts.campaigns[|rows.boosts.campaigns|];
                 && c.durationDays == p.durationDays && c.endsAt == AddDays(c.startsAt, p.durationDays)
                 && paidAt <= c.startsAt && c.status == if c.startsAt == paidAt then Active else Scheduled
  {
    var t := rows.transactions[order];
    var sold := ProductFor(rows, t, SettlesAs(paymentType).value);
    if sold.product.planType.Some? {
      SettlingGivesPlan(QuotaRow(rows, u), sold.product.planType.value, sold.product.billing, paidAt,
                        if sold.planAllowances.Some? then sold.planAllowances.value
                        else PlanAllowances(rows.plans, sold.product.planType.value));
    }
    if t.targetPropertyId.Some? {
      LatestEndIsLatest(rows.boosts.campaigns, t.targetPropertyId.value, paidAt);
    }
  }

  /** A product that can be given: a plan by the month or year, some units for some days, or days on an own listing. */
  predicate Givable(rows: Rows, p: Product, target: Option<PropertyId>, u: UserId) {
    match p.kind
    case SUBSCRIPTION => p.planType.Some? && (p.billing == Monthly || p.billing == Yearly)
    case ENTITLEMENT => p.entitlementType.Some? && p.quantity > 0 && p.validityDays > 0
    case BOOST =>
      && p.durationDays > 0 && target.Some? && target.value in rows.boosts.listings
      && rows.boosts.listings[target.value].ownerId == u
  }

  /** A payment that agrees with its order is refused exactly where its product cannot be given. */
  lemma {:induction false} RefusedExactly(rows: Rows, order: OrderId, u: UserId, paymentType: PaymentType, id: string,
      report: Report, paidAt: int)
    requires Status(rows, order) == Some(Pending) && AgreesWith(report, rows.transactions[order])
    requires SettlesAs(paymentType).Some?
    ensures var t := rows.transactions[order];
            var p := ProductFor(rows, t, SettlesAs(paymentType).value).product;
            Settle(rows, order, u, paymentType, id, report, paidAt).1.Refused?
            <==> !Givable(rows, p, t.targetPropertyId, u)
  {
    MismatchIsDisagreement(rows.transactions[order], report);
  }

  /**
   A callback that is not authentic does nothing; an authentic one about a stored order settles it for the
   user and product stored with it, or, if it is a final failure, fails it while it is pending.
   */
  lemma {:induction false} WebhookOutcome(rows: Rows, w: WebhookResult, now: int)
    ensures !w.isValid ==> HandleWebhook(rows, w, now).0 == rows
    ensures w.providerOrderId.None? || w.providerOrderId.value !in rows.transactions ==>
              HandleWebhook(rows, w, now).0 == rows
    ensures w.isValid && w.providerOrderId.Some? && w.providerOrderId.value in rows.transactions ==>
              var order := w.providerOrderId.value;
              var t, r := rows.transactions[order], HandleWebhook(rows, w, now).0;
              if w.success
              then r == Settle(rows, order, t.userId, t.paymentType, w.transactionId, w.report, now).0
              else if w.isFinal && t.status == Pending
              then
                r == rows.(transactions := rows.transactions[order :=
                       t.(status := Failed, providerTransactionId := Some(w.transactionId))])
              else r == rows
  {
  }

  /** Whether some settlement of the pass throws. */
  predicate Ends(rows: Rows, answers: seq<Answer>)
    decreases |answers|
  {
    answers != [] &&
    var (r, s) := SettleAnswer(rows, answers[0]);
    s.Refused? || Ends(r, answers[1..])
  }

  /** The pass takes the orders one by one; behind a settlement that throws it takes none. */
  lemma {:induction false} PassEndsAtThrow(rows: Rows, a: seq<Answer>, b: seq<Answer>)
    ensures SettlePending(rows, a + b)
            == if Ends(rows, a) then SettlePending(rows, a) else SettlePending(SettlePending(rows, a), b)
    decreases |a|
  {
    if a == [] {
      assert a + b == b;
    } else {
      assert (a + b)[0] == a[0] && (a + b)[1..] == a[1..] + b;
      PassEndsAtThrow(SettleAnswer(rows, a[0]).0, a[1..], b);
    }
  }

  // What was fixed at checkout.

  /** A stored snapshot says all that the purchase depends on. */
  predicate Complete(s: Snapshot) {
    s.product.kind == SUBSCRIPTION && s.product.planType.Some? ==> s.planAllowances.Some?
  }

  /** `checkoutSnapshot`: the product as it is sold now, with the allowances of its plan; a disabled one is refused. */
  function CheckoutSnapshot(rows: Rows, paymentType: PaymentType): Option<Snapshot> {
    if !Enabled(rows.products, paymentType) then None
    else
      var product := ResolvedProduct(rows.products, paymentType);
      Some(Snapshot(product, if product.planType.Some? then Some(PlanAllowances(rows.plans, product.planType.value))
        else None))
  }

  /**
   A disabled product has no snapshot; any other is complete,
   and what it says is what settling without one would find now.
   */
  lemma {:induction false} CheckoutSnapshotIsComplete(rows: Rows, t: Transaction, paymentType: PaymentType)
    requires t.catalogSnapshot.None?
    ensures CheckoutSnapshot(rows, paymentType).None?
            <==> paymentType in rows.products && !rows.products[paymentType].enabled
    ensures CheckoutSnapshot(rows, paymentType).Some? ==>
              var s := CheckoutSnapshot(rows, paymentType).value; Complete(s) && s == ProductFor(rows, t, paymentType)
  {
  }

  function Edited(rows: Rows, plans: PlanConfiguration, products: map<PaymentType, ProductOverride>): Rows {
    rows.(plans := plans, products := products)
  }

  lemma {:induction false} GrantsIgnoreEdits(rows: Rows, plans: PlanConfiguration,
      products: map<PaymentType, ProductOverride>, order: OrderId, u: UserId, paymentType: PaymentType,
      target: Option<PropertyId>, s: Snapshot, paidAt: int)
    requires Complete(s)
    ensures var before := Grants(rows, order, u, paymentType, target, s, paidAt);
            var after := Grants(Edited(rows, plans, products), order, u, paymentType, target, s, paidAt);
            match before
            case None => after.None?
            case Some(done) => after == Some((Edited(done.0, plans, products), done.1))
  {
  }

  lemma {:induction false} FulfilIgnoresEdits(rows: Rows, plans: PlanConfiguration,
      products: map<PaymentType, ProductOverride>, order: OrderId, u: UserId, paymentType: PaymentType,
      id: string, paidAt: int)
    requires order in rows.transactions && rows.transactions[order].catalogSnapshot.Some?
    requires Complete(rows.transactions[order].catalogSnapshot.value)
    ensures var (r, s) := Fulfil(rows, order, u, paymentType, id, paidAt);
            Fulfil(Edited(rows, plans, products), order, u, paymentType, id, paidAt) == (Edited(r, plans, products), s)
  {
    var t := rows.transactions[order];
    var claimed := rows.(transactions := rows.transactions[order :=
                     t.(status := Success, providerTransactionId := Some(id), paidAt := Some(paidAt))]);
    GrantsIgnoreEdits(claimed, plans, products, order, u, paymentType, t.targetPropertyId, t.catalogSnapshot.value,
      paidAt);
  }

  /**
   No later edit of plans or products changes what an order
   with a complete snapshot gives, or whether it is refused.
   */
  lemma {:induction false} SnapshotOutlivesEdits(rows: Rows, plans: PlanConfiguration,
      products: map<PaymentType, ProductOverride>, order: OrderId, u: UserId, paymentType: PaymentType,
      id: string, report: Report, paidAt: int)
    requires order in rows.transactions && rows.transactions[order].catalogSnapshot.Some?
    requires Complete(rows.transactions[order].catalogSnapshot.value)
    ensures var (r, s) := Settle(rows, order, u, paymentType, id, report, paidAt);
            Settle(Edited(rows, plans, products), order, u, paymentType, id, report, paidAt)
              == (Edited(r, plans, products), s)
  {
    FulfilIgnoresEdits(rows, plans, products, order, u, paymentType, id, paidAt);
  }

  /** A payment for a product of the present catalogue never succeeds without giving what it is for. */
  lemma {:induction false} CataloguePaymentGivesValue(rows: Rows, order: OrderId, u: UserId, paymentType: PaymentType,
      id: string, report: Report, paidAt: int)
    requires Settle(rows, order, u, paymentType, id, report, paidAt).1.Paid?
    ensures Settle(rows, order, u, paymentType, id, report, paidAt).1.effect == NoEffect
            <==> paymentType == Uncatalogued
  {
  }

  // Exactly-once bookkeeping between transactions and what they bought.

  predicate PaidBy(rows: Rows, payment: Option<OrderId>) {
    payment.Some? ==> Status(rows, payment.value) == Some(Success)
  }

  /** Grants and paid campaigns belong to distinct successful transactions. */
  predicate PaidOnce(rows: Rows) {
    var gs, cs := rows.grants, rows.boosts.campaigns;
    && (forall i | 0 <= i < |gs| :: PaidBy(rows, gs[i].paymentTransaction))
    && (forall i | 0 <= i < |cs| :: PaidBy(rows, cs[i].paymentTransaction))
    && (forall i, j | 0 <= i < j < |gs| ::
       gs[i].paymentTransaction.None? || gs[i].paymentTransaction != gs[j].paymentTransaction)
    && (forall i, j | 0 <= i < j < |cs| ::
       cs[i].paymentTransaction.None? || cs[i].paymentTransaction != cs[j].paymentTransaction)
    && (forall i, j | 0 <= i < |gs| && 0 <= j < |cs| ::
          gs[i].paymentTransaction.None? || gs[i].paymentTransaction != cs[j].paymentTransaction)
  }

  /** The payments recorded on grants and campaigns, and nothing else, decide `PaidOnce`. */
  lemma {:induction false} PaidOnceStable(rows: Rows, r: Rows)
    requires PaidOnce(rows)
    requires |r.grants| == |rows.grants|
    requires forall i | 0 <= i < |rows.grants| :: r.grants[i].paymentTransaction == rows.grants[i].paymentTransaction
    requires |r.boosts.campaigns| == |rows.boosts.campaigns|
    requires forall i | 0 <= i < |rows.boosts.campaigns| ::
               r.boosts.campaigns[i].paymentTransaction == rows.boosts.campaigns[i].paymentTransaction
    requires forall o | Status(rows, o) == Some(Success) :: Status(r, o) == Some(Success)
    ensures PaidOnce(r)
  {
    forall i | 0 <= i < |r.grants|
      ensures PaidBy(r, r.grants[i].paymentTransaction)
    {
      assert PaidBy(rows, rows.grants[i].paymentTransaction);
    }
    forall i | 0 <= i < |r.boosts.campaigns|
      ensures PaidBy(r, r.boosts.campaigns[i].paymentTransaction)
    {
      assert PaidBy(rows, rows.boosts.campaigns[i].paymentTransaction);
    }
  }

  lemma {:induction false} NewGrantPaidOnce(rows: Rows, g: Grant)
    requires PaidOnce(rows) && PaidBy(rows, g.paymentTransaction)
    requires forall i | 0 <= i < |rows.grants| ::
             g.paymentTransaction.None? || rows.grants[i].paymentTransaction != g.paymentTransaction
    requires forall i | 0 <= i < |rows.boosts.campaigns| ::
               g.paymentTransaction.None? || rows.boosts.campaigns[i].paymentTransaction != g.paymentTransaction
    ensures PaidOnce(rows.(grants := rows.grants + [g]))
  {
    var r := rows.(grants := rows.grants + [g]);
    assert forall o :: Status(r, o) == Status(rows, o);
    assert forall i | 0 <= i < |rows.grants| :: PaidBy(rows, rows.grants[i].paymentTransaction);
    assert forall i | 0 <= i < |rows.boosts.campaigns| :: PaidBy(rows, rows.boosts.campaigns[i].paymentTransaction);
  }

  lemma {:induction false} NewCampaignPaidOnce(rows: Rows, boosts: BoostRows, c: Campaign)
    requires PaidOnce(rows) && PaidBy(rows, c.paymentTransaction)
    requires boosts.campaigns == rows.boosts.campaigns + [c]
    requires forall i | 0 <= i < |rows.grants| ::
             c.paymentTransaction.None? || rows.grants[i].paymentTransaction != c.paymentTransaction
    requires forall i | 0 <= i < |rows.boosts.campaigns| ::
               c.paymentTransaction.None? || rows.boosts.campaigns[i].paymentTransaction != c.paymentTransaction
    ensures PaidOnce(rows.(boosts := boosts))
  {
    var r := rows.(boosts := boosts);
    assert forall o :: Status(r, o) == Status(rows, o);
    assert forall i | 0 <= i < |rows.grants| :: PaidBy(rows, rows.grants[i].paymentTransaction);
    assert forall i | 0 <= i < |rows.boosts.campaigns| :: PaidBy(rows, rows.boosts.campaigns[i].paymentTransaction);
  }

  /** An order that is being claimed paid for nothing so far. */
  lemma {:induction false} PendingPaidNothing(rows: Rows, order: OrderId)
    requires PaidOnce(rows) && Status(rows, order) != Some(Success)
    ensures forall i | 0 <= i < |rows.grants| :: rows.grants[i].paymentTransaction != Some(order)
    ensures forall i | 0 <= i < |rows.boosts.campaigns| :: rows.boosts.campaigns[i].paymentTransaction != Some(order)
  {
    forall i | 0 <= i < |rows.grants| ensures rows.grants[i].paymentTransaction != Some(order) {
      assert PaidBy(rows, rows.grants[i].paymentTransaction);
    }
    forall i | 0 <= i < |rows.boosts.campaigns| ensures rows.boosts.campaigns[i].paymentTransaction != Some(order) {
      assert PaidBy(rows, rows.boosts.campaigns[i].paymentTransaction);
    }
  }

  lemma {:induction false} GrantsKeepsPaidOnce(rows: Rows, order: OrderId, u: UserId, paymentType: PaymentType,
      target: Option<PropertyId>, s: Snapshot, paidAt: int)
    requires PaidOnce(rows) && Status(rows, order) == Some(Success)
    requires forall i | 0 <= i < |rows.grants| :: rows.grants[i].paymentTransaction != Some(order)
    requires forall i | 0 <= i < |rows.boosts.campaigns| :: rows.boosts.campaigns[i].paymentTransaction != Some(order)
    requires Grants(rows, order, u, paymentType, target, s, paidAt).Some?
    ensures PaidOnce(Grants(rows, order, u, paymentType, target, s, paidAt).value.0)
  {
    var r := Grants(rows, order, u, paymentType, target, s, paidAt).value.0;
    match s.product.kind
    case SUBSCRIPTION => PaidOnceStable(rows, r);
    case ENTITLEMENT =>
      NewGrantPaidOnce(rows, r.grants[|rows.grants|]);
    case BOOST =>
      NewCampaignPaidOnce(rows, r.boosts,
        NewCampaign(rows.boosts.campaigns, target.value, u, Some(order), s.product.durationDays, paidAt));
  }

  lemma {:induction false} FulfilKeepsPaidOnce(rows: Rows, order: OrderId, u: UserId, paymentType: PaymentType,
      id: string, paidAt: int)
    requires PaidOnce(rows) && Status(rows, order) == Some(Pending)
    ensures PaidOnce(Fulfil(rows, order, u, paymentType, id, paidAt).0)
  {
    var t := rows.transactions[order];
    var claimed := rows.(transactions := rows.transactions[order :=
                     t.(status := Success, providerTransactionId := Some(id), paidAt := Some(paidAt))]);
    PaidOnceStable(rows, claimed);
    PendingPaidNothing(rows, order);
    if SettlesAs(paymentType).Some? {
      var s := ProductFor(rows, t, SettlesAs(paymentType).value);
      if Grants(claimed, order, u, paymentType, t.targetPropertyId, s, paidAt).Some? {
        GrantsKeepsPaidOnce(claimed, order, u, paymentType, t.targetPropertyId, s, paidAt);
      }
    }
  }

  lemma {:induction false} SettleKeepsPaidOnce(rows: Rows, order: OrderId, u: UserId, paymentType: PaymentType,
      id: string, report: Report, paidAt: int)
    requires PaidOnce(rows)
    ensures PaidOnce(Settle(rows, order, u, paymentType, id, report, paidAt).0)
  {
    if Status(rows, order) == Some(Pending) {
      if Mismatch(rows.transactions[order], report) {
        PaidOnceStable(rows, Settle(rows, order, u, paymentType, id, report, paidAt).0);
      } else {
        FulfilKeepsPaidOnce(rows, order, u, paymentType, id, paidAt);
      }
    }
  }

}
