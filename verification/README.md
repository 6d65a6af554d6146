# PropMatch: what the back end keeps

PropMatch is a rental marketplace. This project models the parts of its NestJS back end that carry state,
arithmetic or string reasoning, and proves what they keep. Run `dafny verify dfyconfig.toml` here to check it.

A database row is a datatype value, a table a map or a sequence of rows. Each call of a service is a
function from tables to tables, and the properties are proved of these functions. The services that update
rows step by step are classes too (`Services`, `LeaseService`, `MarketServices`, `AnalyticsServices`): their
methods write in the order of the code and are proved to do what the functions say. Unless said otherwise a
call is one atomic step, and `now`, its clock, is read once. Every lemma switches automatic induction off, so each proof
is the one that is written.

- **Commercial entitlements.** `PricingCatalog`, `Subscription`, `Ledger`, `SpendingOrder`, `Boosts`,
  `Settlement`, `Capacity`, `CommercialRuns`, `Services`: monthly plans that roll over lazily, add-on grants
  with their own expiry, pending downgrades, boost campaigns queued end to end, exactly-once settlement of
  payments, and the hourly jobs. Two services write the same rows, so the invariants hold over runs of all
  their calls together. The main result on spending is an exchange argument: taking the unit that expires
  first serves at least as many requests as any other choice.
- **Lease contracts.** `Calendar` and `CalendarDates` hold the Gregorian arithmetic of section 21.4 of
  ECMA-262. `LeaseContracts` runs the handlers as whole calls, `LeaseService` is the service, and `LeaseRace`
  pulls the reads and writes of saving, requesting changes, confirming and approving apart and lets them
  interleave freely. What holds there fails once `sendForReview` has left a draft sent and unconfirmed,
  because `approve` writes without a condition; `AgreesUnlessSentUnconfirmed` is the exact boundary.
- **Support stream.** `SseStream`, `SseChunking` and `SupportAiStream`: the loop that re-frames the
  assistant's events (a subset of section 9.2.5 of the WHATWG HTML Standard) and the frame transform. The
  loop normalises its buffer again in every round, so a text with CR CR LF can be read differently depending
  on where it is cut; `CutsAreInvisibleExactly` says that this is the only such case, and `FramesShowTheCut`
  that the frames written differ too.
- **Matching and search.** `Vectors` and `MatchScore` (over the real numbers), `TextMatch`,
  `QueryNumbers` and `SemanticReasons` (the normaliser, whole-phrase matching and the regular expressions for
  numbers, over any alphabet whose case folding is sound),
  `SemanticSearch` (vector and exact results merged, filtered, ranked and cut), `StableSort`, `JsText`.
- **Marketplace and analytics.** `Marketplace` and `MarketServices` hold requests, owner offers, tenant
  offers, connections and agreements as one protocol; `Analytics` and `AnalyticsServices` the daily rows that
  must agree with the event log; `Queues` the order in which staff see submissions and tickets.

Besides the invariants, each protocol has the exact conditions under which a call is accepted, and whose move
every change is: a contract is only approved by its tenant and only revised by its owner, a tenant offer is only
accepted by the side it was put to (`ApprovedByTenant`, `AcceptedByOtherSide`). What the definitions of the
catalogue, the calendar, the scores and the queues come to is stated apart from them, in days, points and tables.

Where the code does less than a reader may expect, the model says exactly when. Staff see FREEMIUM for an
owner whose bought downgrade is due, until that owner's next call (`TierIsCurrentPlan`). Unarchiving a
listing looks at no limit, although creating and editing one do (`UnarchivingFitsOnlyBelowLimit`,
`UnarchivingPassesLimit`). Adding a month can put two instants in the other order (`AddMonthKeepsOrder`,
`JanuaryOvertakesFebruary`). A rent or bedroom limit, which the comment in `semantic-match-reasons.ts` calls a
hard constraint, does not hold of a listing that comes in by its text or its vector (`NumbersHoldExactly`),
and the Arabic word for "until" is never understood as one, because the text is normalised first
(`UntilNeverMatches`, `UntilIsLost`). And a stream that ends in a frame with a line end but no blank line
loses that line end on the way (`ProxyIsTransparent`).

## Model

| member | source | states |
|---|---|---|
| `SpendingOrder.SoonestFirstIsOptimal` | src/quota/quota.service.ts:230-283 | For every run of timed requests, new grants and period rollovers, and every other way of choosing the unit to spend, the code serves at least as many requests of a kind |
| `SpendingOrder.LeadIsKept` | src/quota/quota.service.ts:54-143 | The exchange behind it, for two accounts that differ only in what was spent: an account that has at least as much left after every instant never falls behind by more than its initial lead |
| `Ledger.ConsumeConserves` | src/quota/quota.service.ts:251-282 | A consume succeeds exactly when a live unit of the kind exists, answers the total left, which is one less, keeps every balance in its bounds, and moves no other kind or owner |
| `Ledger.ConsumeTakesSoonest` | src/quota/quota.service.ts:236-270 | The unit spent, from the plan or from one grant, expires no later than any other usable unit |
| `Ledger.SpentUnitIsLive` | src/quota/quota.service.ts:236-270 | What is spent is one unit of that kind of that owner: of the month's allowance, or of a grant that has started, has not ended and is not used up |
| `Ledger.GrantAddsUnits` | src/quota/quota.service.ts:145-160 | A grant counts for its owner and kind while it runs and has units left, and then with what is left of it |
| `Ledger.ConsumeKeepsRows` | src/quota/quota.service.ts:257-270 | A consume changes no field of any grant but the remaining quantity |
| `Ledger.RebaseCarriesUse` | src/commercial-config/commercial-config.service.ts:212-229 | After an edit of the plan a balance lies between zero and the new allowance and counts as used what was used before, as far as it fits |
| `Ledger.EachBalanceIsRebased` | src/commercial-config/commercial-config.service.ts:212-229 | Each of the three balances is re-based by its own allowance, and the listing limit is the new one |
| `Ledger.RebaseRoundTrip` | src/commercial-config/commercial-config.service.ts:212-229 | Editing a plan and editing it back restores a balance if and only if the units used fit the edited allowance |
| `Services.QuotaService.ConsumeSoonestExpiringWithClient` | src/quota/quota.service.ts:230-283 | The row updates of the consume do what the ledger says, or touch nothing and answer nothing |
| `Services.QuotaService.ConsumeSoonestExpiring` | src/quota/quota.service.ts:285-295 | Rolls the period over, consumes, and answers the remaining units of that kind; the shared invariant is kept |
| `Services.QuotaService.WithConsumedOffer` | src/quota/quota.service.ts:325-343 | Exactly one offer is created for one unit spent; if the offer cannot be created, or no unit is left, neither is |
| `CommercialRuns.ConsumeAnswers` | src/quota/quota.service.ts:285-295 | A whole consume call is refused exactly when no unit is live after the rollover, else its answer is one less than before; no other owner is touched |
| `Calendar.AddMonthSpan` | src/quota/quota.service.ts:17-21 | A month added is exactly the length of the month it starts in, 28 to 31 days |
| `Calendar.AddMonthKeepsOrder` | src/quota/quota.service.ts:17-21 | Adding a month to two instants keeps their order if and only if they are at least as far apart as the month of the earlier is longer than that of the later |
| `Calendar.JanuaryOvertakesFebruary` | src/quota/quota.service.ts:17-21 | The failing input in any common year: 31 January leads to 3 March, the day after it to 1 March |
| `Calendar.AddMonthLandsOn` | src/quota/quota.service.ts:17-21 | It keeps the time of day and lands on the same date, or as many days into the month after as the next month lacks |
| `Calendar.AddYearSpan` | src/payments/payments.service.ts:291-299 | A year added is 365 or 366 days, 366 exactly when the twelve months from that month hold a 29 February, and later than the month added |
| `Calendar.DayFromYearClosedForm` | src/lease-contracts/lease-contracts.service.ts:710-711 | Counting the days year by year agrees with the closed formula of section 21.4.1.3 of ECMA-262 |
| `Calendar.MonthStartsByTable` | src/lease-contracts/lease-contracts.service.ts:710-716 | Counted one after the other, the months start on the days of the year that the table of section 21.4.1.4 of ECMA-262 gives, one later from March on in a leap year |
| `Calendar.CivilOfDayOf` | src/lease-contracts/lease-contracts.service.ts:712-716 | Reading year, month and date back from the day of a real date gives that date |
| `CalendarDates.AcceptsRealDates` | src/lease-contracts/lease-contracts.service.ts:706-720 | A text is accepted if and only if it has the shape of four, two and two digits and is a real Gregorian date from the year 100 on, and then as its own UTC midnight |
| `CalendarDates.RemappedYear` | src/lease-contracts/lease-contracts.service.ts:710-718 | Every year below 100 is refused, because Date.UTC takes it for one of the twentieth century |
| `CalendarDates.TextOrderIsDateOrder` | src/lease-contracts/lease-contracts.service.ts:706-720 | Accepted texts are ordered as text exactly as the dates they name |
| `CalendarDates.FormatOfParse` | src/lease-contracts/lease-contracts.service.ts:706-720 | Formatting an accepted date gives the text back |
| `CalendarDates.ParseOfFormat` | src/lease-contracts/lease-contracts.service.ts:706-720 | Parsing a formatted date from the year 100 on gives its midnight back |
| `PricingCatalog.CatalogueIsGraded` | src/payments/pricing.catalog.ts:1-136 | A dearer plan allows more of everything, a year of a plan costs ten of its months, boosts run 7, 14 and 30 days and cost less by the day the longer they run |
| `PricingCatalog.RetiredTypesKeepTheirMeaning` | src/payments/payments.service.ts:23-33 | A payment type of earlier times settles as a product of the same plan, kind of unit or length of boost, which settles as itself |
| `Subscription.EnsureKeepsInv` | src/quota/quota.service.ts:54-143 | The rollover keeps the subscription invariant: FREE has no plan expiry, a paid period ends no later than its plan, pending fields are all set (OWNER_PLUS, start before end) or all null, no balance is negative |
| `Subscription.EnsureLeavesLivePeriod` | src/quota/quota.service.ts:76-103 | Afterwards the period, and a paid plan, end after now |
| `Subscription.EnsureIsIdempotent` | src/quota/quota.service.ts:54-143 | A second rollover at the same instant changes nothing |
| `Subscription.EnsureNeverRaisesRank` | src/quota/quota.service.ts:76-88 | A rollover never raises the plan |
| `Subscription.EnsureResets` | src/quota/quota.service.ts:88-142 | A live period is left alone; a lapsed one restarts at now with every balance full, ends a month later or with the plan where that is earlier, and stands under the same plan, under the pending plan whose start has come, or under FREE where the plan ran out without one |
| `Subscription.FirstPeriodIsFree` | src/quota/quota.service.ts:58-74 | An owner without a row gets the FREE plan and a month of its allowances |
| `Subscription.BalancesReturnMonthly` | src/quota/quota.service.ts:96-142 | Whatever the plan and its billing, a call 31 days or more after the last reset finds every balance full |
| `Subscription.SettleKeepsInv` | src/payments/payments.service.ts:276-362 | Settling any subscription keeps the same invariant |
| `Subscription.SettleOnLivePlan` | src/payments/payments.service.ts:300-324 | On a live plan a smaller one waits for its end and runs its own time from there, the same one is prolonged from its end; by 365 or 366 days when it is paid by the year, by 28 to 31 when by the month; no other field changes |
| `Subscription.SettleStartsPlan` | src/payments/payments.service.ts:325-362 | Otherwise the bought plan starts at once and lasts the year or month paid for, with a first month inside it, full balances, nothing pending, and the deadline of a listing excess as it was |
| `Subscription.DowngradeTakesOver` | src/payments/payments.service.ts:300-311 | A bought downgrade leaves the plan as it is until its end, is then taken over by the next call, and runs out at its own end, the year or month paid for later |
| `Services.QuotaService.EnsureCurrentPeriod` | src/quota/quota.service.ts:54-143 | The updates of the quota row, branch by branch, do what the rollover says: a live period stays, a lapsed one and a new row begin a month of full balances |
| `Services.PaymentsService.Subscribe` | src/payments/payments.service.ts:276-362 | The writes of the subscription branch do what settling says: the plan is given for the time paid for, behind, in continuation of, or instead of the one before |
| `Boosts.NewCampaignQueues` | src/payments/payments.service.ts:388-401 | A new campaign starts no earlier than now and no earlier than any campaign of its listing ends, and later than now only at such an end |
| `Boosts.BoostAddsCampaign` | src/payments/payments.service.ts:388-422 | A boost adds one campaign of the days asked for, running at once exactly where none of the listing is still to end, and boosts the listing to its end |
| `Boosts.AddCampaignKeepsInv` | src/payments/payments.service.ts:388-422 | Adding a paid or plan campaign keeps the campaign invariant |
| `Boosts.CampaignsNeverOverlap` | src/payments/payments.service.ts:388-422 | No instant is covered by two campaigns of a listing |
| `Boosts.BoostedWithoutGap` | src/payments/payments.service.ts:398-408 | From now to the end of the flag every instant of a boosted listing is covered by a campaign |
| `Boosts.BoughtTimeIsBoostedTime` | src/payments/payments.service.ts:399-422 | The milliseconds a listing is boosted in all are those of the days bought for it |
| `Boosts.OneActiveAfterReconcile` | src/payments/payments.service.ts:448-459 | After a pass a campaign is ACTIVE exactly while it covers the instant, EXPIRED exactly once it has ended, and at most one of a listing is ACTIVE |
| `Boosts.FlagAfterReconcile` | src/payments/payments.service.ts:439-445 | The pass takes the flag from exactly the listings whose last campaign has ended |
| `Boosts.ReconcileKeepsInv` | src/payments/payments.service.ts:438-459 | A pass keeps the campaign invariant; a set flag names the latest campaign end |
| `Boosts.BoostRunsKeepInv` | src/quota/quota.service.ts:377-423 | Every run of boosts, status changes and passes keeps it |
| `Services.Database.CreateCampaign` | src/payments/payments.service.ts:388-422 | The campaign row and the flag of the listing are written as the queue says |
| `Services.QuotaService.ActivatePlanBoost` | src/quota/quota.service.ts:369-436 | A plan boost spends one credit and queues one campaign on an approved listing of the owner, or does neither, and keeps the shared invariant |
| `CommercialRuns.PlanBoostCostsOneCredit` | src/quota/quota.service.ts:369-436 | A plan boost is refused exactly without a credit, or for a listing that is missing, not the owner's or not approved; else one credit less, one unpaid campaign more of the days of the owner's plan, and the flag at its end |
| `Settlement.SettledIsTerminal` | src/payments/payments.service.ts:219-220 | SUCCESS and FAILED are final, and no other transaction is written |
| `Settlement.MismatchGrantsNothing` | src/payments/payments.service.ts:221-241 | A report that names another amount than that of the order to the nearest cent, or another currency, grants nothing and fails a pending transaction |
| `Settlement.FulfilClaims` | src/payments/payments.service.ts:243-264 | Claiming an order writes its own row and no other, and a payment without an entitlement changes nothing else |
| `Settlement.ValueMeansClaim` | src/payments/payments.service.ts:213-264 | Value is granted exactly together with the one change from PENDING to SUCCESS, and only on a report that agrees or says nothing; a pending order fails exactly on one that does not; any refusal leaves every table as it was |
| `Settlement.PaidGivesOneEntitlement` | src/payments/payments.service.ts:276-423 | A payment changes one plan, adds one grant or adds one campaign on a listing of the buyer, recorded with its transaction, and touches nothing else |
| `Settlement.PaidGivesWhatWasBought` | src/payments/payments.service.ts:276-423 | The plan bought is given for the year or month paid for, with the allowances fixed at checkout where it starts; the grant has the bought kind, quantity and validity, the campaign the bought days |
| `Settlement.RefusedExactly` | src/payments/payments.service.ts:276-423 | A payment that agrees with its order is refused exactly where its product cannot be given: a plan with no term, units without number or validity, a boost without days or on no listing of the buyer |
| `Settlement.WebhookOutcome` | src/payments/payments.service.ts:130-184 | A callback that is not authentic changes nothing; an authentic one settles the stored order for its stored user and product, or as a final failure fails it while it is pending |
| `Settlement.PassEndsAtThrow` | src/payments/payments.service.ts:460-482 | The hourly pass takes its orders one after the other, and none behind a settlement that throws |
| `Settlement.CataloguePaymentGivesValue` | src/payments/payments.service.ts:23-33 | A successful payment gives no value if and only if its type is neither in the catalogue nor mapped to it |
| `Settlement.SettleKeepsPaidOnce` | src/payments/payments.service.ts:197-425 | Grants and paid campaigns keep belonging to distinct SUCCESS transactions |
| `Services.PaymentsService.ProcessSuccessfulPayment` | src/payments/payments.service.ts:197-425 | The transaction does what settling says, all of it or nothing |
| `Services.PaymentsService.ClaimAndEntitle` | src/payments/payments.service.ts:243-425 | Claiming comes first; where the entitlement throws, the claim is rolled back with it |
| `Services.PaymentsService.Entitle` | src/payments/payments.service.ts:276-423 | The three branches write what the bought product grants, or throw |
| `Settlement.SnapshotOutlivesEdits` | src/payments/payments.service.ts:265-277 | What an order with a complete snapshot gives, or that it is refused, does not depend on any later edit of plans or products |
| `Settlement.CheckoutSnapshotIsComplete` | src/commercial-config/commercial-config.service.ts:102-115 | A product that has been disabled is not offered; for any other the snapshot taken at checkout is complete, and what it says is what settling without one would find at that moment |
| `CommercialRuns.CheckoutAccepted` | src/payments/payments.service.ts:46-128 | A checkout is accepted exactly for a product of the catalogue that is not disabled, a role it is for and, for a boost, an approved listing of the buyer; then one pending order of the present price is written |
| `CommercialRuns.PurchaseIsFixedAtCheckout` | src/payments/payments.service.ts:46-128 | After an accepted checkout and any run of calls, edits of plans and products among them, the order still stands with its buyer, type and listing, expects the price of the moment of checkout and settles for the product of that moment |
| `Services.PaymentsService.Checkout` | src/payments/payments.service.ts:46-128 | An offered product for a permitted role, and for a boost an approved listing of the buyer, becomes one pending transaction with its price and snapshot; anything else writes nothing; the shared invariant is kept |
| `CommercialRuns.ProductEditAccepted` | src/commercial-config/commercial-config.service.ts:132-176 | An edit is accepted exactly for a product of the catalogue whose amounts are named and not zero; it decides whether the product is sold, and no other product changes |
| `CommercialRuns.PlanEditReaches` | src/commercial-config/commercial-config.service.ts:178-239 | An edited plan has the new allowances, and the quotas of its owners, no others, are re-based |
| `CommercialRuns.EditedProductIsSellable` | src/commercial-config/commercial-config.service.ts:132-176 | An accepted edit of a product sells at the price and with the amounts asked for, none of which is zero |
| `Services.PaymentsService.HandleWebhook` | src/payments/payments.service.ts:130-184 | An authentic callback settles the stored transaction, fails it, or is ignored, and keeps the shared invariant |
| `Services.PaymentsService.ReconcilePendingTransactions` | src/payments/payments.service.ts:438-482 | The hourly pass: flags, campaign states, then one settlement after the other for the pending transactions the gateway confirms, ended by the first that throws; the shared invariant is kept |
| `CommercialRuns.RunsSettleOnce` | src/payments/payments.service.ts:130-184 | Over every run of duplicate, late or contradictory callbacks and passes an order pays at most once, only if it was open, and a settled row never changes again |
| `CommercialRuns.RunsKeepInv` | src/payments/payments.service.ts:197-425 | Over every run of calls of the quota, payment, configuration and listing services and of both hourly jobs the shared tables keep all these invariants together |
| `CommercialRuns.EmptyTablesSatisfyInv` | src/quota/quota.service.ts:54-75 | Such runs may start from empty tables |
| `CommercialRuns.EnforcementKeepsInv` | src/quota/quota.service.ts:449-481 | The hourly capacity job keeps them too |
| `Services.CommercialConfigService.UpdatePlan` | src/commercial-config/commercial-config.service.ts:178-239 | The loop over the quotas of the plan re-bases each of them and no other; with boosts of at least a day the shared invariant is kept |
| `Services.CommercialConfigService.UpdateProduct` | src/commercial-config/commercial-config.service.ts:132-176 | An edit of a catalogue product stores the amounts of its kind, or is refused where one is missing; afterwards the product can be granted; the shared invariant is kept |
| `Services.CommercialConfigService.Rebase` | src/commercial-config/commercial-config.service.ts:212-229 | The four balances of one quota are re-based |
| `Capacity.EnforcementOutcome` | src/quota/quota.service.ts:449-481 | After an owner's turn of the hourly job the active listings are within the limit or a deadline lies ahead; an expired grace leaves exactly the limit, the oldest listings |
| `Capacity.GraceLastsSevenDays` | src/quota/quota.service.ts:162-198 | Whoever is first seen over the limit has seven days; within the limit no deadline runs |
| `Capacity.DeadlineDecides` | src/quota/quota.service.ts:449-481 | Before its deadline the job archives nothing of an owner; from the deadline on it leaves exactly the limit |
| `Capacity.AddOnRaisesLimit` | src/quota/quota.service.ts:162-180 | The limit is that of the plan and, while it runs, every unit of the owner's listing add-ons |
| `Capacity.ModerationMovesPlaces` | src/quota/quota.service.ts:172-180 | A listing takes a place while it waits for moderation or is approved: approving frees none, rejecting and archiving do |
| `Capacity.OnlyTheOwnerArchives` | src/properties/properties.service.ts:661-690 | Nobody but the owner archives or unarchives; archiving changes the status alone, unarchiving sends back to moderation without a boost |
| `Capacity.CreateRespectsLimit` | src/properties/properties.service.ts:425-470 | A listing is created exactly where one more fits, so the count never passes the limit that way, and no grace is running then |
| `Capacity.UnarchivingFitsOnlyBelowLimit` | src/properties/properties.service.ts:675-690 | Unarchiving looks at no limit: an owner within the limit of plan and grants is still within it afterwards if and only if one more listing fitted |
| `Capacity.UnarchivingPassesLimit` | src/properties/properties.service.ts:674-690 | A run that ends beyond it: create one, archive it, create another, unarchive the first, and two are active where one is allowed |
| `Capacity.ArchivingMovesOne` | src/properties/properties.service.ts:661-690 | Archiving takes one listing out of the active ones and unarchiving puts it back |
| `Services.QuotaService.GetListingCapacity` | src/quota/quota.service.ts:162-198 | Limit, count and deadline, with the quota row updated to match |
| `Services.QuotaService.FindNewest` | src/quota/quota.service.ts:462-469 | The given number of listings, none of those left out being newer |
| `Services.QuotaService.EnforceOwner` | src/quota/quota.service.ts:454-480 | One owner's turn archives the newest listings in excess once grace is over, and clears the deadline |
| `Services.QuotaService.ExpireEntitlementsAndEnforceCapacity` | src/quota/quota.service.ts:449-481 | After the job every owner is within the limit or has a deadline ahead, no turn undid another, and the tables are those that the turns in order make and stay consistent |
| `Services.PropertiesService.Create` | src/properties/properties.service.ts:425-500 | Nothing is written for a region that is not open; else limit and count are read and checked, and the listing is written only where one more fits; the shared invariant is kept |
| `Services.PropertiesService.Archive` | src/properties/properties.service.ts:661-672 | Only the owner, and only the status; the shared invariant is kept |
| `Services.PropertiesService.Unarchive` | src/properties/properties.service.ts:674-690 | Only the owner; back to moderation and without a boost; the shared invariant is kept |
| `LeaseContracts.StoredTermsAreSound` | src/lease-contracts/lease-contracts.service.ts:124-164 | A stored draft has bounded names, address and clauses, a positive rent, and two real dates, the first before the second |
| `LeaseContracts.DraftsAccepted` | src/lease-contracts/lease-contracts.service.ts:124-210 | A draft is accepted exactly with real dates in order, bounded names, address and clauses, at most thirty of them, and a positive rent; stored are the trimmed texts of the connection and the draft, and its rent or else that of the connection |
| `LeaseContracts.CallsAccepted` | src/lease-contracts/lease-contracts.service.ts:97-509 | Each call is accepted exactly from its party on a row in the right state: saving and sending from the owner, approving, rejecting, requesting changes and confirming from the tenant |
| `LeaseContracts.OthersAreRefused` | src/lease-contracts/lease-contracts.service.ts:97-349 | Whoever is not of a connected match finds nothing, and its other party is told that the call is not theirs |
| `LeaseContracts.DraftsAreTheOwners` | src/lease-contracts/lease-contracts.service.ts:165-210 | A row comes about, and its terms or revision change, only when the owner saves; the draft is then unsent, unreviewed and one revision on |
| `LeaseContracts.MovesAreTheParties` | src/lease-contracts/lease-contracts.service.ts:213-509 | A draft is sent by the owner or confirmed by the tenant, put back by the tenant or answered by the owner, and confirmed, rejected or sent back with a message by the tenant alone |
| `LeaseContracts.ApprovalIsTheTenants` | src/lease-contracts/lease-contracts.service.ts:240-323 | A contract becomes APPROVED only by its tenant, with both national ids and a stored document, which is of the terms that stood there |
| `LeaseContracts.ApprovedByTenant` | src/lease-contracts/lease-contracts.service.ts:240-323 | Over every run, a contract that is approved at the end was approved in one of its turns by the tenant of the match |
| `LeaseContracts.CallKeepsInv` | src/lease-contracts/lease-contracts.service.ts:97-349 | Each handler keeps: APPROVED exactly with a PDF, of the stored terms, confirmed at the current revision; REVIEW_CONFIRMED exactly with a reviewed revision, the current one; CHANGES_REQUESTED with a message of five characters or more |
| `LeaseContracts.RunsKeepInv` | src/lease-contracts/lease-contracts.service.ts:419-509 | Every run of whole calls from no draft at all keeps it |
| `LeaseContracts.ApprovedIsFinal` | src/lease-contracts/lease-contracts.service.ts:240-323 | No run of calls changes any field of an approved contract |
| `LeaseContracts.ConfirmedTermsStay` | src/lease-contracts/lease-contracts.service.ts:107-199 | In every run of whole calls a confirmed review stays confirmed at its revision, with its terms |
| `LeaseContracts.RefusalsChangeNothing` | src/lease-contracts/lease-contracts.service.ts:457-509 | A refused call changes nothing, except that a confirmation stays written where the approval after it fails |
| `LeaseContracts.EditFlag` | src/lease-contracts/lease-contracts.service.ts:680-685 | With a sound draft, canEdit is set exactly where an unsent draft may be saved; saving is accepted besides on a sent one with changes requested |
| `LeaseContracts.RequestChangesFlag` | src/lease-contracts/lease-contracts.service.ts:686-691 | With a long enough message, canRequestChanges is set exactly where an unsent draft takes it; it is accepted besides on a sent one still in review |
| `LeaseContracts.ConfirmReviewFlag` | src/lease-contracts/lease-contracts.service.ts:692-698 | With the current revision, both identities verified and the document stored, canConfirmReview is set exactly where a confirmation goes through and approves these terms |
| `LeaseContracts.DownloadFlag` | src/lease-contracts/lease-contracts.service.ts:699-701 | On reachable rows canDownloadPdf is set exactly for approved contracts; a download is accepted for those and for a confirmed draft, from either party and nobody else, always at the reviewed revision |
| `LeaseRace.RunsKeepInv` | src/lease-contracts/lease-contracts.service.ts:107-199 | In every interleaving of the read and write halves of saving, requesting changes, confirming and approving, the row stays consistent, revisions never go back, and a revision names one set of terms |
| `LeaseRace.InFlightWasRead` | src/lease-contracts/lease-contracts.service.ts:97-509 | Whatever call is in flight was read in an earlier step by its party: saving by the owner, all others by the tenant |
| `LeaseRace.UndisturbedCallsAreWhole` | src/lease-contracts/lease-contracts.service.ts:97-455 | Two halves with nothing in between are the whole handler |
| `LeaseRace.UndisturbedConfirmationIsWhole` | src/lease-contracts/lease-contracts.service.ts:457-509 | So are those of a confirmation and of the approval behind it |
| `LeaseRace.ConfirmedForGood` | src/lease-contracts/lease-contracts.service.ts:462-508 | In every such interleaving a confirmed review stays so, its terms and revision never change, the reviewed revision is the drafted one, and any document is of these terms |
| `LeaseRace.ConfirmsWhatWasRead` | src/lease-contracts/lease-contracts.service.ts:480-494 | A review still open is confirmed for a revision read earlier if and only if the terms and revision are those that were read |
| `LeaseRace.AgreesUnlessSentUnconfirmed` | src/lease-contracts/lease-contracts.service.ts:222-225 | Where the guarantee ends: from a row at rest some interleaving makes the reviewed and the drafted revision differ if and only if the draft was sent without being confirmed |
| `LeaseRace.StaleApprovalDisagrees` | src/lease-contracts/lease-contracts.service.ts:299-313 | The interleaving: an approval that read the sent draft writes after a revision |
| `LeaseService.LeaseContractsService.SaveDraft` | src/lease-contracts/lease-contracts.service.ts:97-210 | Saving creates the first draft or revises it, or refuses; accepted only from the owner; the rows of other matches are untouched, and the invariant of every row is kept |
| `LeaseService.LeaseContractsService.SendForReview` | src/lease-contracts/lease-contracts.service.ts:213-233 | Sending moves a draft on, and only a draft; accepted only from the owner; the rows of other matches are untouched, and the invariant of every row is kept |
| `LeaseService.LeaseContractsService.Approve` | src/lease-contracts/lease-contracts.service.ts:240-323 | Approval stores the document and the revision it was made of; accepted only from the tenant; the rows of other matches are untouched, and the invariant of every row is kept |
| `LeaseService.LeaseContractsService.Reject` | src/lease-contracts/lease-contracts.service.ts:326-349 | Rejecting puts a sent contract back to drafting, with the trimmed note; accepted only from the tenant; the rows of other matches are untouched, and the invariant of every row is kept |
| `LeaseService.LeaseContractsService.RequestChanges` | src/lease-contracts/lease-contracts.service.ts:419-455 | A change request is stored once and only before confirmation; accepted only from the tenant; the rows of other matches are untouched, and the invariant of every row is kept |
| `LeaseService.LeaseContractsService.ConfirmReview` | src/lease-contracts/lease-contracts.service.ts:457-509 | Confirming the revision read, or recovering one confirmed before, goes on to approval; accepted only from the tenant; the rows of other matches are untouched, and the invariant of every row is kept |
| `SseStream.Reframe` | src/customer-support/customer-support.controller.ts:83-116 | The read loop over chunks writes exactly the non-blank frames that its buffer yields, then what is held at the end |
| `SseStream.ChunkingIsInvisible` | src/customer-support/customer-support.controller.ts:104-116 | For a text without CR CR LF every cut into chunks, inside a CRLF or between two newlines too, gives the frames of the whole text read at once |
| `SseChunking.CutsAreInvisibleExactly` | src/customer-support/customer-support.controller.ts:107-110 | The pieces, blank ones included, are the same for every cut of a text if and only if it has no CR CR LF |
| `SseChunking.CutCostsCr` | src/customer-support/customer-support.controller.ts:107-110 | A cut behind a CR CR LF loses a carriage return that the whole text keeps |
| `SseChunking.FramesShowTheCut` | src/customer-support/customer-support.controller.ts:104-116 | A CR CR LF that ends in a piece which is not blank shows in the frames too: cutting behind it, the loop writes other frames than for the whole text |
| `SseChunking.FramesAreNonBlankPieces` | src/customer-support/customer-support.controller.ts:109-113 | What the loop writes is those pieces without the blank ones |
| `SseStream.CrCrLfShowsChunking` | src/customer-support/customer-support.controller.ts:107-110 | Two cuts of one text with CR CR LF that are written differently |
| `SupportAiStream.ParseOfEncode` | src/customer-support/support-ai-stream.ts:28-48 | Parsing an encoded payload gives the payload back |
| `SupportAiStream.FirstDataLineIsParsed` | src/customer-support/support-ai-stream.ts:32-48 | What is parsed of a frame is the rest of its first line that begins, after any white space, with data: |
| `SupportAiStream.HandoffIsReported` | src/customer-support/support-ai-stream.ts:63-87 | Every frame passes unchanged but a done event that asks for a person with id, reason and one of the three priorities, which becomes a message and a done event with the ticket, or with the failure and without reason and priority; its other fields stay |
| `SupportAiStream.ResponseReadsBack` | src/customer-support/support-ai-stream.ts:63-87 | A client that splits the response at blank lines reads exactly the frames that were written |
| `SupportAiStream.ProxyIsTransparent` | src/customer-support/customer-support.controller.ts:87-116 | End to end, for a text without CR CR LF and whatever line text the decoder flushes, the client reads the transformed frames of the whole text if and only if the last piece is blank, is an escalation, or ends in neither LF nor CR |
| `SupportAiStream.UnclosedFrameIsCut` | src/customer-support/customer-support.controller.ts:115 | The failing inputs with LF: a last frame that is not closed and no escalation is written with three line feeds and read without its own |
| `SupportAiStream.UnclosedFrameFails` | src/customer-support/customer-support.controller.ts:115 | One of them, "data: x" and a line feed |
| `Vectors.CosineSimilarity` | src/matching/matching.math.util.ts:16-30 | None exactly for empty, unequal or zero vectors; else a value in [-1, 1] that times both norms is the dot product |
| `Vectors.CauchySchwarz` | src/matching/matching.math.util.ts:22-29 | The square of a dot product is at most the product of the squared norms |
| `Vectors.OneMeansSameDirection` | src/matching/matching.math.util.ts:27-29 | The similarity is one if and only if one vector is a positive multiple of the other |
| `MatchScore.ScoreRequestAgainstProperty` | src/offers/match-score.util.ts:11-41 | The running score is the clamped sum of the criteria and lies in 5..98 |
| `MatchScore.BetterFitScoresNoLower` | src/offers/match-score.util.ts:15-41 | A listing that meets every criterion another meets never scores lower |
| `MatchScore.CriteriaWeigh` | src/offers/match-score.util.ts:15-30 | Coming into the budget adds 40 points, so an unaffordable listing never gains; the place adds 12 and the type 8 |
| `MatchScore.BedroomsAndBoostWeigh` | src/offers/match-score.util.ts:28-38 | Enough bedrooms add 5 and a boost 2 |
| `MatchScore.FurnitureWeighs` | src/offers/match-score.util.ts:29 | Furniture adds 5 where it is needed; where it is not, its points are given anyway |
| `MatchScore.MentionsWeigh` | src/offers/match-score.util.ts:31-37 | Each word of the wishes that description or services mention adds 2 points, up to 10 |
| `MatchScore.NothingMetScores` | src/offers/match-score.util.ts:15-41 | A listing that meets nothing scores 28 and the flexibility of the request in tenths, rounded; every sum is kept within 5 and 98 |
| `MatchScore.SplitOfSpaced` | src/offers/match-score.util.ts:31-37 | Splitting at white space gives back the words a text was made of |
| `MatchScore.HybridIsNearMean` | src/offers/match-score.util.ts:51-62 | With a similarity the hybrid score is an integer in 0..100, and for a rule score in that range within one half of the mean of both parts |
| `MatchScore.HybridIsMonotone` | src/offers/match-score.util.ts:51-62 | Raising either part never lowers it |
| `MatchScore.ComputeHybridMatch` | src/offers/offers.service.ts:56-74 | The score of a request and a listing: the rules alone without comparable vectors, else joined with their cosine; always an integer in 0..100 |
| `TextMatch.NormalizeJoinsTokens` | src/properties/semantic-match-reasons.ts:33-43 | The stages of the normaliser come to the folded tokens, one space between any two |
| `TextMatch.NormalizeKeepsTokens` | src/properties/semantic-match-reasons.ts:33-43 | Normalising keeps the tokens and is idempotent |
| `TextMatch.ContainsTermMatchesTokens` | src/properties/semantic-match-reasons.ts:45-52 | Searching the padded text finds a term if and only if its tokens are non-empty and occur in a row in the query |
| `TextMatch.NormalizedTextsMatchAlike` | src/properties/semantic-match-reasons.ts:156-178 | Queries or terms normalised beforehand give the same answers |
| `TextMatch.TermsAreInherited` | src/properties/semantic-match-reasons.ts:45-52 | A term found in a text is found wherever the tokens of that text occur in a row |
| `TextMatch.NormalizeSettles` | src/properties/semantic-match-reasons.ts:33-43 | A normalised text holds no capital, no alef with hamza, madda or wasla, no alef maksura, teh marbuta or tatweel |
| `TextMatch.SpellingsMatchAlike` | src/properties/semantic-match-reasons.ts:33-43 | Texts that differ in capitals or in the alefs, in yeh and alef maksura, or in heh and teh marbuta are normalised alike |
| `TextMatch.TatweelIsNothing` | src/properties/semantic-match-reasons.ts:39 | A tatweel anywhere is as if it were not there |
| `SemanticReasons.PreferencesByTokens` | src/properties/semantic-match-reasons.ts:104-131 | Furnishing is denied exactly when a denial's tokens occur, wanted exactly when only a wish's do; a place matches exactly when the tokens of its city's Arabic or English name or of its district occur |
| `SemanticReasons.FurnishingNormalized` | src/properties/semantic-match-reasons.ts:104-122 | The furnishing preference does not depend on prior normalising |
| `SemanticReasons.PlaceAndTypeNormalized` | src/properties/semantic-match-reasons.ts:124-140 | Nor do the place and type matches |
| `SemanticReasons.TypeReaderNormalized` | src/properties/semantic-match-reasons.ts:143-150 | Nor does the type preference |
| `SemanticReasons.TypePreferenceByTokens` | src/properties/semantic-match-reasons.ts:143-150 | The type is the first of apartment, villa and studio one of whose words occurs |
| `SemanticReasons.BedroomReaderNormalized` | src/properties/semantic-match-reasons.ts:55-78 | Nor does the bedroom count, as the expression and the phrases read it |
| `SemanticReasons.RentReaderNormalized` | src/properties/semantic-match-reasons.ts:85-101 | Nor does the rent limit, as the expression reads it |
| `SemanticReasons.BedroomsByTokens` | src/properties/semantic-match-reasons.ts:55-78 | The expression for bedrooms reads whole tokens: the first digit from 1 to 5 followed by a room word in the same token or as the next one; else the first of the counting phrases |
| `QueryNumbers.ReadCountByTokens` | src/properties/semantic-match-reasons.ts:73-75 | On tokens joined by single spaces, the leftmost match of the expression is the first such count |
| `QueryNumbers.Leftmost` | src/properties/semantic-match-reasons.ts:97-100 | The match found is the leftmost: none exactly where no place matches, else what matches at a place with no match before it |
| `SemanticReasons.NumbersAreBounded` | src/properties/semantic-match-reasons.ts:55-101 | A bedroom count is one to five where the counting phrases name one to five, as the ones in use do (`KnownNumbersAreBounded`); a rent limit is less than ten million |
| `QueryNumbers.DigitsKeepTheirValue` | src/properties/semantic-match-reasons.ts:57-62 | Arabic-Indic digits become the Latin digits of the same value and nothing else changes |
| `QueryNumbers.ValueOfDecimal` | src/properties/semantic-match-reasons.ts:100 | Reading a number written in decimal gives the number |
| `QueryNumbers.LimitBehindWord` | src/properties/semantic-match-reasons.ts:97-100 | Behind a phrase and a space three digits at least are read, and seven at most |
| `SemanticReasons.UnderIsRead` | src/properties/semantic-match-reasons.ts:85-101 | The word under, a space and any number of three to seven digits asks for that number |
| `SemanticReasons.FirstMentionedIsFirst` | src/properties/semantic-match-reasons.ts:77 | The count of the phrases is that of the first one that the text contains |
| `SemanticReasons.UnsettledPhrasesAreDead` | src/properties/semantic-match-reasons.ts:85-101 | A rent phrase spelled with a character that normalising replaces never matches: without it every query is read alike |
| `SemanticReasons.UntilNeverMatches` | src/properties/semantic-match-reasons.ts:97-99 | The alternative spelled with alef maksura is such a phrase: for every query the limit is what the other eight phrases give |
| `SemanticReasons.UntilIsLost` | src/properties/semantic-match-reasons.ts:85-101 | The failing inputs: that word, a space and any number give no limit at all |
| `SemanticReasons.FirstReasons` | src/properties/semantic-match-reasons.ts:160-185 | Of the reasons that hold one to three are given: the specific ones always, furnishing unless three stand before it, the general one only where there is room |
| `SemanticReasons.ReasonsAreFacts` | src/properties/semantic-match-reasons.ts:163-178 | The bedroom reason holds where no more are asked for than there are, the furnishing reason where it is wanted and there, the type reason where a word of the type occurs |
| `SemanticReasons.BuildSemanticMatchReasons` | src/properties/semantic-match-reasons.ts:156-186 | The reasons pushed for the normalised query are facts about the query as typed |
| `SemanticSearch.CollectMatches` | src/properties/properties.service.ts:163-192 | Each usable match once, at its first place |
| `SemanticSearch.KeptExactly` | src/properties/properties.service.ts:164-191 | A listing is kept exactly when some match of it counts: with its id, its vector id and a distance from 0 to 2; its similarity is one less the distance of the first such match, to the fourth decimal |
| `SemanticSearch.DirectExactly` | src/properties/properties.service.ts:290-304 | A listing is found by its own text exactly when it is approved and its title or description contains the query |
| `SemanticSearch.NothingToGoBy` | src/properties/properties.service.ts:197-205 | Without a match that counts and without a wish but perhaps a place there are no results |
| `SemanticSearch.SemanticSearch` | src/properties/properties.service.ts:141-390 | Empty after the early exit, else the ranked candidates cut at the limit: boosted ones first, then the more similar, each as the text asks for on furnishing, type and place, and on its numbers unless it was found by its own text or its vector |
| `SemanticSearch.ResultsAreSound` | src/properties/properties.service.ts:329-381 | No listing twice; every one approved and as the query says on furnishing, type and place; boosted first, then by similarity; no more than the limit |
| `SemanticSearch.NumbersHoldExactly` | src/properties/properties.service.ts:277-358 | Bedrooms and rent hold of all candidates if and only if no listing that suits the query otherwise and misses them comes in by its own text or, where none does, near enough by its vector |
| `SemanticSearch.NumbersHoldUnlessNear` | src/properties/properties.service.ts:277-358 | So every result meets the bedrooms and rent asked for, or was found by its own text, or is at least as near as the threshold |
| `SemanticSearch.NearListingIsShown` | src/properties/properties.service.ts:351-358 | The failing inputs: whatever numbers a query asks for, an approved listing that misses them is shown when its vector is that of the query |
| `SemanticSearch.RentLimitFails` | src/properties/properties.service.ts:249-251 | One of them: a rent of 9000 where 6000 at most is asked for |
| `SemanticSearch.AnswersAreCandidates` | src/properties/properties.service.ts:277-314 | With a restrictive wish and no direct text hit every approved listing that meets all explicit wishes is present before the cut |
| `SemanticSearch.CandidatesAreSourced` | src/properties/properties.service.ts:305-328 | Listings found by their own text stand alone with similarity 1; otherwise a candidate has the similarity of its vector, or 0 where only the exact search found it |
| `SemanticSearch.AnswersAreFound` | src/properties/properties.service.ts:375-381 | Such a listing is missing only from full results, all of which are boosted where it is not, or boosted alike and at least as similar |
| `StableSort.SortOrders` | src/properties/properties.service.ts:375-381 | The sort leaves no element ahead of one that the comparator puts before it |
| `StableSort.SortIsStable` | src/properties/properties.service.ts:375-381 | Elements that the comparator does not tell apart keep their order |
| `JsText.TrimSplits` | src/lease-contracts/lease-contracts.service.ts:743 | Trimming takes white space off both ends and nothing else |
| `Marketplace.RunsKeepInv` | src/offers/offers.service.ts:413-438 | Over every run of calls the market invariant holds: accepted offers and connections are linked, a FULFILLED request has no open offer, one direct connection and one active tenant offer at most per tenant and listing |
| `Marketplace.AcceptedOffersAreConnections` | src/offers/offers.service.ts:413-438 | In every reachable market the owners of the accepted offers on a request are those connected through it, each once on both sides |
| `Marketplace.AgreementsStand` | src/messages/messages.service.ts:134-189 | An agreement once reached never changes, and no other connection of its request reaches one later |
| `Marketplace.SecondAgreementIsRefused` | src/messages/messages.service.ts:150-161 | A second confirmation for one request is refused and rolled back as a whole |
| `Marketplace.AgreementClears` | src/messages/messages.service.ts:162-187 | Afterwards no offer is open on the request or the listing, the listing is archived and the request fulfilled; every other offer, request and listing is as before |
| `Marketplace.OfferCallsAccepted` | src/offers/offers.service.ts:218-470 | An owner's offer is made exactly by the owner of an approved listing, once per approved request, for a unit; it is viewed, accepted or rejected exactly by the tenant of the request while it is open |
| `Marketplace.TenantOfferCallsAccepted` | src/tenant-offers/tenant-offers.service.ts:49-231 | A tenant offer is accepted, declined or countered exactly by its owner and withdrawn or, once countered, accepted exactly by its tenant, in the states and on the listings that the code allows |
| `Marketplace.ConfirmationAccepted` | src/messages/messages.service.ts:99-161 | An agreement is confirmed exactly by the tenant of the request, or by the owner where there is none, while the request is open to it |
| `Marketplace.OffersMove` | src/offers/offers.service.ts:368-470 | No call changes an owner's offer but its tenant's, or an agreement that makes it void |
| `Marketplace.TenantOffersMove` | src/tenant-offers/tenant-offers.service.ts:151-231 | No call changes a tenant offer but one of its two sides in its turn, or an agreement that makes it void |
| `Marketplace.ConnectionsMove` | src/tenant-offers/tenant-offers.service.ts:259-306 | Connections come from accepted offers, a direct one only where there is none, and are agreed on by the designated party alone |
| `Marketplace.RequestsMove` | src/messages/messages.service.ts:150-187 | Requests are reviewed while pending, closed and archived by their tenant, and fulfilled by the tenant's agreement |
| `Marketplace.AnswersTakeEffect` | src/tenant-offers/tenant-offers.service.ts:151-231 | An accepted call has its effect: the offer, request or connection stands as it says, and an accepted tenant offer is connected |
| `Marketplace.AcceptedByOtherSide` | src/tenant-offers/tenant-offers.service.ts:151-220 | Over every run, a tenant offer that is accepted at the end was accepted in one of its turns by the side it was put to: by the owner while pending, by the tenant once countered |
| `Marketplace.RefusalsChangeNothing` | src/messages/messages.service.ts:99-125 | A refused call leaves every table as it was |
| `MarketServices.OffersService.CreateOffer` | src/offers/offers.service.ts:218-264 | One offer per owner and request, on an approved request with an approved listing of the owner; it is made exactly where a unit is left, and then exactly one unit of the owner is spent; a call refused earlier leaves the account alone; the market invariant is kept |
| `MarketServices.OffersService.ViewOffer` | src/offers/offers.service.ts:368-386 | SENT becomes VIEWED, nothing else changes; the market invariant is kept |
| `MarketServices.OffersService.AcceptOffer` | src/offers/offers.service.ts:393-438 | The offer becomes ACCEPTED together with its connection, only while request and listing are approved; the market invariant is kept |
| `MarketServices.OffersService.RejectOffer` | src/offers/offers.service.ts:457-470 | Only an open offer is rejected; the market invariant is kept |
| `MarketServices.TenantOffersService.Create` | src/tenant-offers/tenant-offers.service.ts:49-83 | One active offer per tenant and listing, never on an own one; the market invariant is kept |
| `MarketServices.TenantOffersService.LandlordAccept` | src/tenant-offers/tenant-offers.service.ts:151-157 | Only a pending offer is settled, and only by its owner; the market invariant is kept |
| `MarketServices.TenantOffersService.LandlordDecline` | src/tenant-offers/tenant-offers.service.ts:160-168 | Only an active offer is declined, and only by its owner; the market invariant is kept |
| `MarketServices.TenantOffersService.LandlordCounter` | src/tenant-offers/tenant-offers.service.ts:179-195 | Only a pending offer is countered, and only by its owner; the market invariant is kept |
| `MarketServices.TenantOffersService.TenantAccept` | src/tenant-offers/tenant-offers.service.ts:210-220 | Only a countered offer is settled, and only by its tenant; the market invariant is kept |
| `MarketServices.TenantOffersService.TenantWithdraw` | src/tenant-offers/tenant-offers.service.ts:223-231 | Only an active offer is withdrawn, and only by its tenant; the market invariant is kept |
| `MarketServices.TenantOffersService.SettleAsMatch` | src/tenant-offers/tenant-offers.service.ts:259-306 | The direct connection of the pair is used where there is one |
| `MarketServices.MessagesService.ConfirmAgreement` | src/messages/messages.service.ts:99-208 | The statements of the transaction, undone where the request is settled already; the market invariant is kept |
| `Analytics.DailyRowsAgreeWithLog` | src/property-analytics/property-analytics.service.ts:61-126 | After every run a day's row has that day's events as views, organic and boosted together, and its distinct visitors, with uniqueViews <= views <= 48 * uniqueViews |
| `Analytics.DaysAddUp` | src/favorites/favorites.service.ts:52-99 | After every run the views of all days are the events of the listing, and favourites added less those removed are its favourites |
| `Analytics.RunsKeepInv` | src/property-analytics/property-analytics.service.ts:83-143 | Every run keeps rows and log in step |
| `Analytics.WindowsTileTheDay` | src/property-analytics/property-analytics.service.ts:66-69 | A day is 48 dedupe windows and no window reaches into two days |
| `Analytics.StartOfUtcDayIsMidnight` | src/property-analytics/property-analytics.service.ts:17-21 | The start of a day is the midnight before the instant if and only if the year is not one of 0 to 99 |
| `Analytics.ViewsCounted` | src/property-analytics/property-analytics.service.ts:42-134 | A view is counted exactly on an approved listing, by somebody who is no bot, no administrator and not its owner, can be told apart, and has not been counted in the same half-hour; boosted exactly while an active campaign covers it; any other view changes nothing |
| `AnalyticsServices.PropertyAnalyticsService.TrackView` | src/property-analytics/property-analytics.service.ts:42-134 | A view is excluded, a duplicate, or recorded with its row, and rows stay in step with the log |
| `Analytics.OneCounterUp` | src/property-analytics/property-analytics.service.ts:136-143 | Recording a counter moves that one figure of that listing and day by one and nothing else |
| `AnalyticsServices.PropertyAnalyticsService.RecordCounter` | src/property-analytics/property-analytics.service.ts:136-143 | One of the five counters of the present day goes up by one and no other figure of any day moves; rows stay in step with the log |
| `AnalyticsServices.FavoritesService.AddFavorite` | src/favorites/favorites.service.ts:52-81 | Refused for a listing that does not exist; else the favourite is created and counted once, and rows stay in step with the log |
| `AnalyticsServices.FavoritesService.RemoveFavorite` | src/favorites/favorites.service.ts:87-99 | A favourite is removed and counted once, and rows stay in step with the log |
| `Queues.QueueNeverStarves` | src/admin/admin.service.ts:329-348 | The queue is a permutation in order, and whatever stands ahead of an item came in less than ten days after it |
| `Queues.TenDaysFirst` | src/admin/admin.service.ts:337-346 | Ten days of waiting outweigh any tier |
| `Queues.TierIsWorthDays` | src/admin/admin.service.ts:337-346 | PREMIUM counts as ten whole days of waiting and OWNER_PLUS as five; of two items that count alike the earlier stands first |
| `Queues.HigherTierFirst` | src/admin/admin.service.ts:337-346 | Of items that came in together the higher tier stands first |
| `Queues.NoPlanIsFreemium` | src/admin/admin.service.ts:317-327 | Without a quota row or a plan that is live an owner counts as FREEMIUM |
| `Queues.QueueIsStable` | src/admin/admin.service.ts:337-346 | Items of one score and one moment keep the order in which they were read |
| `Queues.SortCommercialQueue` | src/admin/admin.service.ts:329-348 | The array is sorted in place |
| `Queues.TierIsCurrentPlan` | src/admin/admin.service.ts:317-327 | The tier staff see is the plan the owner's next call finds if and only if no bought downgrade waits to be taken over |
| `Queues.DueDowngradeLooksFree` | src/admin/admin.service.ts:317-327 | It can wait: PREMIUM and then OWNER_PLUS bought from nothing, at the end of the first, shows FREEMIUM where the next call finds OWNER_PLUS |
| `Queues.TicketsNeverStarve` | src/customer-support/customer-support.service.ts:375-384 | The list holds exactly the tickets selected, each as often as it was read, severest first, and within a severity whatever stands ahead came in less than ten days later |
| `Queues.TicketTierIsWorthDays` | src/customer-support/customer-support.service.ts:375-384 | Tickets go by severity, CRITICAL, URGENT, HIGH, NORMAL, LOW, and within one as the submissions do |
| `Queues.TenDaysFirstTicket` | src/customer-support/customer-support.service.ts:375-384 | Among tickets of one severity ten days of waiting outweigh any tier |
| `Queues.PagesJoin` | src/customer-support/customer-support.service.ts:386-389 | Pages neither drop nor repeat: one after the other they are the sorted list |
| `Queues.GetAdminTickets` | src/customer-support/customer-support.service.ts:317-408 | An unknown status or tier is refused; else the page asked for or 1, of the size asked for within 1..50 or 20, is that part of the sorted selection |

## Left out

- Payment gateway, HMAC, object storage, PDF rendering, embeddings, vector store, mail and push: their outcomes are inputs of the calls (a webhook's validity and content, `Approval.stored`, the list of vector matches, the gateway's answers).
- Password, token and encryption code, controllers, guards, DTO decorators, mappers, translations and seeds, except the read loop of `customer-support.controller.ts`.
- Notifications, realtime emits and mail after a commit.
- Isolation: reads and writes of one call are one step everywhere but in `LeaseRace`; `sendForReview` and `reject`, whose writes are unconditional, are not interleaved, nor are `viewOffer`, `createOffer` and the quota read-then-write paths.
- Clock: a call that reads `new Date()` several times reads it once here, except the hourly payment pass, which has two readings and one per settlement. Instants are unbounded integers; the range of `Date` and `NaN` are not modelled.
- Numbers: money, rents, scores and similarities are exact reals, `Math.round` is the floor of a half more; rounding errors of floating point are not modelled.
- `findFirst` on ties of its order returns one fixed row, and a table is read in one fixed order; the newest listings to archive are any choice among equally old ones.
- Settlement.ValueMeansClaim: the currency of a report is taken as already trimmed and in capitals.
- Analytics.ViewsCounted: whether a user agent names a bot is an input.
- Services.PaymentsService.ReconcilePendingTransactions: the query for transactions at least thirty minutes old, one hundred at a time, is not modelled; the answers may name any orders.
- Settlement.PaidGivesOneEntitlement: a boost product whose duration is zero is refused like one without a duration, and the stored JSON snapshot is either absent or well formed.
- Paid time over plan changes: nothing is claimed about it, since an upgrade clears a pending plan and a second downgrade overwrites the first.
- Services.PaymentsService.Checkout: the gateway's payment link, and the answer to the buyer that carries it, are left out; so are `productSku` and `billingInterval` of the new row, which no later step reads. Whether the role is permitted is an input.
- Services.QuotaService.GetListingCapacity: promises the equality with its function alone, like the private helpers of `Services`; the calls that use it keep the shared invariant.
- Lease responses: prefilled fields, lists, signed links and the two document layouts; a document is the terms and national ids it shows.
- LeaseContracts.ConfirmReviewFlag: speaks of a call that meets verified identities and a working renderer; the flag itself looks at neither.
- SseStream.ChunkingIsInvisible: the bytes still held by the decoder at the end are line-free text, since `TextDecoder` flushes at most a replacement character. Byte decoding is not modelled.
- Text lengths: strings are sequences of Unicode scalar values; JavaScript counts UTF-16 units, so the bounds of 5, 200, 500 and 2000 characters and the words longer than 3 differ for texts outside the basic plane.
- SupportAiStream.ParseOfEncode: JSON is an inverse pair of functions whose text has no raw newline; its syntax is not modelled.
- TextMatch.NormalizeKeepsTokens: letters, digits and lower case are parameters that map character by character; lower case that depends on context or changes the length is not modelled.
- SemanticReasons.BuildSemanticMatchReasons: the Arabic texts of the reasons are left out.
- SseChunking.FramesShowTheCut: where the CR CR LF stands in a blank piece, which is never written, a cut may or may not change the frames; nothing is claimed.
- SemanticSearch.SemanticSearch: the case-insensitive SQL search that precedes the exact text test only narrows it, and is left out; so are summaries, hydration and the 503 answer on a failing dependency.
- The browsing search (`getAll`), its filters and its fallback: one query each.
- MatchScore.ComputeHybridMatch: `buildHybridMatchReasons` and the sorting of browsed requests are left out.
- Marketplace.ConfirmationAccepted: messages, unread counts and the price agreed on are left out.
- Marketplace.RunsKeepInv: listings may change status in any way, which covers moderation, archiving and the capacity job; proposed prices and messages of owner offers are left out.
- Analytics.DailyRowsAgreeWithLog: the two hashes are taken to be injective, and `getPropertyAnalytics` is left out.
- Queues.GetAdminTickets: filter words arrive parsed; fractional page numbers are left out.
- Listing edits, images, regions and moderation details of `properties.service.ts` and `admin.service.ts`.
- User reviews, identity verification, chats, notifications, team administration and account life cycle beyond deletion: few branches each.
