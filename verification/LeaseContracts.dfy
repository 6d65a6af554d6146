/**
 The handshake over one lease contract. Every handler reads the row, checks it, and writes; the check
 and the write are functions of their own, so that the calls can be run whole here and interleaved in
 LeaseRace. `None` for a row means that no draft exists yet.
 */
module LeaseContracts {
  import opened Wrappers
  import opened JsText
  import opened Calendar
  import opened CalendarDates

  type UserId = string

  datatype LeaseStatus = Drafting | PendingTenantApproval | Approved
  datatype ReviewStatus = PendingReview | ChangesRequested | ReviewConfirmed

  datatype Witness = Witness(name: Option<string>, nationalId: Option<string>)

  /** What the parties agree on: all that a draft sets and a document shows. */
  datatype Terms = Terms(
    ownerName: string, tenantName: string, propertyAddress: string, rentAmount: real,
    startDate: int, endDate: int, customClauses: seq<string>, witness1: Witness, witness2: Witness)

  datatype Pdf = Pdf(terms: Terms, ownerNationalId: string, tenantNationalId: string, generatedAt: int)

  datatype Contract = Contract(
    terms: Terms, generatedBy: UserId, status: LeaseStatus, review: ReviewStatus,
    tenantChangeRequest: Option<string>, tenantChangeRequestedAt: Option<int>, tenantReviewConfirmedAt: Option<int>,
    draftRevision: nat, tenantReviewedRevision: Option<nat>, changeRequestNote: Option<string>, pdf: Option<Pdf>)

  /** The connection behind the contract, as it is when a call looks it up. */
  datatype Match = Match(
    ownerId: UserId, tenantId: UserId, connected: bool,
    ownerName: string, tenantName: string, district: string, manualAddress: string, rentAmount: real)

  datatype Draft = Draft(
    startDate: string, endDate: string, rentAmount: Option<real>, customClauses: Option<seq<string>>,
    witness1: Witness, witness2: Witness)

  /** What `approve` is told by the identity table, the renderer and the storage. */
  datatype Approval = Approval(ownerNationalId: Option<string>, tenantNationalId: Option<string>, stored: bool)

  datatype LeaseError =
    | NotFound | Forbidden | ContractDraftLocked | DraftLocked | AlreadyDrafted
    | StartDateError(start: DateError) | EndDateError(end: DateError) | EndDateMustBeAfterStartDate
    | TrustedTextIsInvalid | RentAmountMustBePositive | TooManyCustomClauses | CustomClauseIsInvalid
    | NotInDraftingState | NotPendingTenantApproval | IdentityNotVerified | PdfNotStored
    | ReviewAlreadyConfirmed | ChangesAlreadyRequested | ChangeRequestTooShort
    | ChangesPending | RevisionChanged | PdfNeedsConfirmedReview

  // ---- What a draft may say ----

  function RequireTrustedText(value: string, maximum: nat): (r: Result<string, LeaseError>)
    ensures r.Ok? <==> 0 < |Trim(value)| <= maximum
    ensures r.Ok? ==> 0 < |r.value| <= maximum
  {
    var normalized := Trim(value);
    if normalized == [] || |normalized| > maximum then Err(TrustedTextIsInvalid) else Ok(normalized)
  }

  predicate ClauseOk(clause: string) {
    0 < |clause| <= 2000 && !IsSpace(clause[0]) && !IsSpace(clause[|clause| - 1])
  }

  predicate ClausesOk(clauses: seq<string>) {
    forall i | 0 <= i < |clauses| :: ClauseOk(clauses[i])
  }

  function NormalizeEach(clauses: seq<string>): (r: Result<seq<string>, LeaseError>)
    ensures r.Ok? ==> |r.value| == |clauses| && ClausesOk(r.value)
  {
    if clauses == [] then Ok([])
    else
      var normalized := Trim(clauses[0]);
      if normalized == [] || |normalized| > 2000 then Err(CustomClauseIsInvalid)
      else
        var rest := NormalizeEach(clauses[1..]);
        TrimmedEnds(clauses[0]);
        if rest.Err? then rest else Ok([normalized] + rest.value)
  }

  function NormalizeCustomClauses(clauses: seq<string>): (r: Result<seq<string>, LeaseError>)
    ensures r.Ok? ==> |r.value| == |clauses| <= 30 && ClausesOk(r.value)
  {
    if |clauses| > 30 then Err(TooManyCustomClauses) else NormalizeEach(clauses)
  }

  predicate TermsOk(t: Terms) {
    && 0 < |t.ownerName| <= 200 && 0 < |t.tenantName| <= 200 && 0 < |t.propertyAddress| <= 500
    && t.rentAmount > 0.0 && t.startDate < t.endDate
    && |t.customClauses| <= 30 && ClausesOk(t.customClauses)
  }

  function AgreedTerms(m: Match, d: Draft, startDate: int, endDate: int): (r: Result<Terms, LeaseError>)
    requires startDate < endDate
    ensures r.Ok? ==> TermsOk(r.value) && r.value.startDate == startDate && r.value.endDate == endDate
  {
    var ownerName := RequireTrustedText(m.ownerName, 200);
    var tenantName := RequireTrustedText(m.tenantName, 200);
    var address := RequireTrustedText(m.district + "\U{060C} " + m.manualAddress, 500);
    var rentAmount := if d.rentAmount.Some? then d.rentAmount.value else m.rentAmount;
    var clauses := NormalizeCustomClauses(if d.customClauses.Some? then d.customClauses.value else []);
    if ownerName.Err? then Err(ownerName.error)
    else if tenantName.Err? then Err(tenantName.error)
    else if address.Err? then Err(address.error)
    else if rentAmount <= 0.0 then Err(RentAmountMustBePositive)
    else if clauses.Err? then Err(clauses.error)
    else Ok(Terms(ownerName.value, tenantName.value, address.value, rentAmount,
                  startDate, endDate, clauses.value, d.witness1, d.witness2))
  }

  function NewTerms(m: Match, d: Draft): (r: Result<Terms, LeaseError>)
    ensures r.Ok? ==> TermsOk(r.value)
  {
    var start := ParseCalendarDate(d.startDate);
    var end := ParseCalendarDate(d.endDate);
    if start.Err? then Err(StartDateError(start.error))
    else if end.Err? then Err(EndDateError(end.error))
    else if end.value <= start.value then Err(EndDateMustBeAfterStartDate)
    else AgreedTerms(m, d, start.value, end.value)
  }

  lemma {:induction false} TrimmedEnds(s: string)
    requires Trim(s) != []
    ensures !IsSpace(Trim(s)[0]) && !IsSpace(Trim(s)[|Trim(s)| - 1])
  {
    assert Trim(s)[0] == TrimStart(s)[0];
  }

  lemma {:induction false} DatesOfDraft(start: string, end: string)
    requires ParseCalendarDate(start).Ok? && ParseCalendarDate(end).Ok?
    requires ParseCalendarDate(start).value < ParseCalendarDate(end).value
    ensures IsoShape(start) && Written(start).Valid()
            && ParseCalendarDate(start).value == DayOf(Written(start)) * DAY_MS
    ensures IsoShape(end) && Written(end).Valid() && ParseCalendarDate(end).value == DayOf(Written(end)) * DAY_MS
    ensures Precedes(start, end)
  {
    AcceptsRealDates(start);
    AcceptsRealDates(end);
    TextOrderIsDateOrder(start, end);
  }

  /**
   Every stored draft is sound: its names, rent and clauses keep their bounds, and its dates are the
   two dates written, real ones, the first before the second.
   */
  lemma {:induction false} StoredTermsAreSound(m: Match, d: Draft)
    requires NewTerms(m, d).Ok?
    ensures TermsOk(NewTerms(m, d).value)
    ensures IsoShape(d.startDate) && Written(d.startDate).Valid() && IsoShape(d.endDate) && Written(d.endDate).Valid()
    ensures Precedes(d.startDate, d.endDate)
    ensures NewTerms(m, d).value.startDate == DayOf(Written(d.startDate)) * DAY_MS
    ensures NewTerms(m, d).value.endDate == DayOf(Written(d.endDate)) * DAY_MS
  {
    DatesOfDraft(d.startDate, d.endDate);
  }

  predicate Bounded(s: string, maximum: nat) {
    0 < |s| <= maximum
  }

  lemma {:induction false} ClausesAccepted(clauses: seq<string>)
    ensures NormalizeEach(clauses).Ok? <==> forall i | 0 <= i < |clauses| :: Bounded(Trim(clauses[i]), 2000)
    ensures NormalizeEach(clauses).Ok? ==>
              forall i | 0 <= i < |clauses| :: NormalizeEach(clauses).value[i] == Trim(clauses[i])
    decreases |clauses|
  {
    if clauses != [] {
      ClausesAccepted(clauses[1..]);
      assert forall i | 1 <= i < |clauses| :: clauses[i] == clauses[1..][i - 1];
    }
  }

  /**
   Which drafts are accepted, and what is stored of one: the trimmed names and address of the connection, the
   dates as written, the rent of the draft or else of the connection, and the trimmed clauses.
   */
  lemma {:induction false} DraftsAccepted(m: Match, d: Draft)
    ensures var address := m.district + "\U{060C} " + m.manualAddress;
            var rent := if d.rentAmount.Some? then d.rentAmount.value else m.rentAmount;
            var clauses := if d.customClauses.Some? then d.customClauses.value else [];
            && (NewTerms(m, d).Ok? <==>
                  && ParseCalendarDate(d.startDate).Ok? && ParseCalendarDate(d.endDate).Ok?
                  && ParseCalendarDate(d.startDate).value < ParseCalendarDate(d.endDate).value
                  && Bounded(Trim(m.ownerName), 200) && Bounded(Trim(m.tenantName), 200) && Bounded(Trim(address), 500)
                  && rent > 0.0 && |clauses| <= 30
                  && forall i | 0 <= i < |clauses| :: Bounded(Trim(clauses[i]), 2000))
            && (NewTerms(m, d).Ok? ==>
                  var t := NewTerms(m, d).value;
                  && t.ownerName == Trim(m.ownerName) && t.tenantName == Trim(m.tenantName)
                  && t.propertyAddress == Trim(address) && t.rentAmount == rent
                  && ParseCalendarDate(d.startDate) == Ok(t.startDate) && ParseCalendarDate(d.endDate) == Ok(t.endDate)
                  && t.witness1 == d.witness1 && t.witness2 == d.witness2
                  && |t.customClauses| == |clauses|
                  && forall i | 0 <= i < |clauses| :: t.customClauses[i] == Trim(clauses[i]))
  {
    ClausesAccepted(if d.customClauses.Some? then d.customClauses.value else []);
  }

  // ---- The two halves of the handlers ----

  /** Only the two parties of a connected match find it. */
  predicate FindsMatch(m: Match, u: UserId) {
    m.connected && (u == m.ownerId || u == m.tenantId)
  }

  function SaveCheck(row: Option<Contract>, u: UserId, m: Match, d: Draft): Result<Terms, LeaseError> {
    if !FindsMatch(m, u) then Err(NotFound)
    else if u != m.ownerId then Err(Forbidden)
    else if row.Some? && row.value.review.ReviewConfirmed? then Err(ContractDraftLocked)
    else if row.Some? && !row.value.status.Drafting? && !row.value.review.ChangesRequested? then Err(DraftLocked)
    else NewTerms(m, d)
  }

  function FirstDraft(t: Terms, u: UserId): Contract {
    Contract(t, u, Drafting, PendingReview, None, None, None, 1, None, None, None)
  }

  function Revised(c: Contract, t: Terms, u: UserId): Contract {
    c.(terms := t, generatedBy := u, status := Drafting, review := PendingReview,
       draftRevision := c.draftRevision + 1, tenantChangeRequest := None, tenantChangeRequestedAt := None)
  }

  /** A first draft meets the unique key of its match, a later one the condition on the review. */
  function SaveWrite(row: Option<Contract>, existed: bool, t: Terms, u: UserId): Result<Contract, LeaseError> {
    if !existed then
      if row.Some? then Err(AlreadyDrafted) else Ok(FirstDraft(t, u))
    else if row.None? || row.value.review.ReviewConfirmed? then Err(ContractDraftLocked)
    else Ok(Revised(row.value, t, u))
  }

  function SendCheck(row: Option<Contract>, u: UserId, m: Match): Option<LeaseError> {
    if !FindsMatch(m, u) then Some(NotFound)
    else if u != m.ownerId then Some(Forbidden)
    else if row.None? then Some(NotFound)
    else if !row.value.status.Drafting? then Some(NotInDraftingState)
    else None
  }

  /** What `approve` will store, or that there is nothing left to do. */
  function ApproveCheck(row: Option<Contract>, u: UserId, m: Match, a: Approval,
      now: int): Result<Option<Pdf>, LeaseError>
  {
    if !FindsMatch(m, u) then Err(NotFound)
    else if u != m.tenantId then Err(Forbidden)
    else if row.None? then Err(NotFound)
    else if row.value.status.Approved? then Ok(None)
    else if !row.value.status.PendingTenantApproval? then Err(NotPendingTenantApproval)
    else if a.ownerNationalId.None? || a.tenantNationalId.None? then Err(IdentityNotVerified)
    else if !a.stored then Err(PdfNotStored)
    else Ok(Some(Pdf(row.value.terms, a.ownerNationalId.value, a.tenantNationalId.value, now)))
  }

  /** The write of `approve`: unconditional, with the revision and the confirmation it read. */
  function ApproveWrite(c: Contract, read: Contract, pdf: Pdf, u: UserId, now: int): Contract {
    c.(generatedBy := u, pdf := Some(pdf), status := Approved, review := ReviewConfirmed,
       tenantReviewConfirmedAt := if read.tenantReviewConfirmedAt.Some? then read.tenantReviewConfirmedAt
         else Some(now),
       tenantReviewedRevision := Some(read.draftRevision))
  }

  function RejectCheck(row: Option<Contract>, u: UserId, m: Match): Option<LeaseError> {
    if !FindsMatch(m, u) then Some(NotFound)
    else if u != m.tenantId then Some(Forbidden)
    else if row.None? then Some(NotFound)
    else if !row.value.status.PendingTenantApproval? then Some(NotPendingTenantApproval)
    else None
  }

  function RequestCheck(row: Option<Contract>, u: UserId, m: Match, message: string): Result<string, LeaseError> {
    if row.None? then Err(NotFound)
    else if u != m.tenantId then Err(Forbidden)
    else if row.value.review.ReviewConfirmed? then Err(ReviewAlreadyConfirmed)
    else if row.value.review.ChangesRequested? then Err(ChangesAlreadyRequested)
    else if |Trim(message)| < 5 then Err(ChangeRequestTooShort)
    else Ok(Trim(message))
  }

  function RequestWrite(c: Contract, message: string, now: int): Result<Contract, LeaseError> {
    match c.review
    case PendingReview =>
      Ok(c.(review := ChangesRequested, tenantChangeRequest := Some(message), tenantChangeRequestedAt := Some(now)))
    case ReviewConfirmed => Err(ReviewAlreadyConfirmed)
    case ChangesRequested => Err(ChangesAlreadyRequested)
  }

  datatype Confirmation = AlreadyApproved | Recover | Confirm

  function ConfirmCheck(row: Option<Contract>, u: UserId, m: Match, expected: int): Result<Confirmation, LeaseError> {
    if row.None? then Err(NotFound)
    else if u != m.tenantId then Err(Forbidden)
    else if row.value.status.Approved? then Ok(AlreadyApproved)
    else if row.value.review.ReviewConfirmed? then Ok(Recover)
    else if row.value.review.ChangesRequested? then Err(ChangesPending)
    else if expected != row.value.draftRevision then Err(RevisionChanged)
    else Ok(Confirm)
  }

  /** The recovery of a review confirmed earlier; it never touches an approved contract. */
  function RecoverWrite(c: Contract): Contract {
    if c.status.Approved? then c else c.(status := PendingTenantApproval)
  }

  /** The conditional write of a confirmation, and what to do when it met no row. */
  function ConfirmWrite(c: Contract, expected: int, now: int): Result<Contract, LeaseError> {
    if c.review.PendingReview? && c.draftRevision == expected then
      Ok(c.(status := PendingTenantApproval, review := ReviewConfirmed, tenantReviewConfirmedAt := Some(now),
            tenantReviewedRevision := Some(c.draftRevision), tenantChangeRequest := None,
            tenantChangeRequestedAt := None))
    else if c.review.ReviewConfirmed? then Ok(c)
    else if c.review.ChangesRequested? then Err(ChangesPending)
    else Err(RevisionChanged)
  }

  // ---- Whole calls ----

  datatype Call =
    | SaveDraft(draft: Draft)
    | SendForReview
    | Approve(approval: Approval)
    | Reject(note: Option<string>)
    | RequestChanges(message: string)
    | ConfirmReview(expectedRevision: int, confirmed: Approval)

  /** The row after a call, and its refusal. */
  datatype Outcome = Outcome(row: Option<Contract>, error: Option<LeaseError>)

  function ApproveRow(row: Option<Contract>, u: UserId, m: Match, a: Approval, now: int): Outcome {
    var check := ApproveCheck(row, u, m, a, now);
    if check.Err? then Outcome(row, Some(check.error))
    else if check.value.None? then Outcome(row, None)
    else Outcome(Some(ApproveWrite(row.value, row.value, check.value.value, u, now)), None)
  }

  function Do(row: Option<Contract>, u: UserId, m: Match, call: Call, now: int): Outcome {
    match call
    case SaveDraft(d) =>
      var check := SaveCheck(row, u, m, d);
      if check.Err? then Outcome(row, Some(check.error))
      else
        var written := SaveWrite(row, row.Some?, check.value, u);
        if written.Err? then Outcome(row, Some(written.error)) else Outcome(Some(written.value), None)
    case SendForReview =>
      var error := SendCheck(row, u, m);
      if error.Some? then Outcome(row, error)
      else Outcome(Some(row.value.(status := PendingTenantApproval, changeRequestNote := None)), None)
    case Approve(a) => ApproveRow(row, u, m, a, now)
    case Reject(note) =>
      var error := RejectCheck(row, u, m);
      if error.Some? then Outcome(row, error)
      else
        var kept := if note.Some? && Trim(note.value) != [] then Some(Trim(note.value)) else None;
        Outcome(Some(row.value.(status := Drafting, changeRequestNote := kept)), None)
    case RequestChanges(message) =>
      var check := RequestCheck(row, u, m, message);
      if check.Err? then Outcome(row, Some(check.error))
      else
        var written := RequestWrite(row.value, check.value, now);
        if written.Err? then Outcome(row, Some(written.error)) else Outcome(Some(written.value), None)
    case ConfirmReview(expected, a) =>
      var check := ConfirmCheck(row, u, m, expected);
      if check.Err? then Outcome(row, Some(check.error))
      else if check.value.AlreadyApproved? then Outcome(row, None)
      else if check.value.Recover? then ApproveRow(Some(RecoverWrite(row.value)), u, m, a, now)
      else
        var written := ConfirmWrite(row.value, expected, now);
        if written.Err? then Outcome(row, Some(written.error)) else ApproveRow(Some(written.value), u, m, a, now)
  }

  datatype Turn = Turn(user: UserId, found: Match, call: Call, now: int)

  function Run(row: Option<Contract>, turns: seq<Turn>): Option<Contract>
    decreases |turns|
  {
    if turns == [] then row
    else Run(Do(row, turns[0].user, turns[0].found, turns[0].call, turns[0].now).row, turns[1..])
  }

  // ---- What every reachable row satisfies ----

  ghost predicate ContractInv(c: Contract) {
    && TermsOk(c.terms) && c.draftRevision >= 1
    && (c.status.Approved? <==> c.pdf.Some?)
    && (c.status.Approved? ==> c.review.ReviewConfirmed?)
    && (c.pdf.Some? ==> c.pdf.value.terms == c.terms)
    && (c.review.ReviewConfirmed? <==> c.tenantReviewedRevision == Some(c.draftRevision))
    && (c.review.ReviewConfirmed? <==> c.tenantReviewConfirmedAt.Some?)
    && (c.review.ChangesRequested? ==> c.tenantChangeRequest.Some? && |c.tenantChangeRequest.value| >= 5)
    && (c.review.PendingReview? ==> c.tenantChangeRequest == None && c.tenantReviewedRevision == None)
    && (c.tenantReviewedRevision.Some? ==> c.review.ReviewConfirmed?)
  }

  ghost predicate RowInv(row: Option<Contract>) {
    row.Some? ==> ContractInv(row.value)
  }

  lemma {:induction false} CallKeepsInv(row: Option<Contract>, u: UserId, m: Match, call: Call, now: int)
    requires RowInv(row)
    ensures RowInv(Do(row, u, m, call, now).row)
  {
    if call.SaveDraft? && NewTerms(m, call.draft).Ok? {
      StoredTermsAreSound(m, call.draft);
    }
  }

  /** Whatever the parties do, in any order, from no draft at all. */
  lemma {:induction false} RunsKeepInv(row: Option<Contract>, turns: seq<Turn>)
    requires RowInv(row)
    ensures RowInv(Run(row, turns))
    decreases |turns|
  {
    if turns != [] {
      CallKeepsInv(row, turns[0].user, turns[0].found, turns[0].call, turns[0].now);
      RunsKeepInv(Do(row, turns[0].user, turns[0].found, turns[0].call, turns[0].now).row, turns[1..]);
    }
  }

  /** An approved contract is final: no later call changes any field of it. */
  lemma {:induction false} ApprovedIsFinal(row: Option<Contract>, turns: seq<Turn>)
    requires RowInv(row) && row.Some? && row.value.status.Approved?
    ensures Run(row, turns) == row
    decreases |turns|
  {
    if turns != [] {
      assert Do(row, turns[0].user, turns[0].found, turns[0].call, turns[0].now).row == row;
      ApprovedIsFinal(row, turns[1..]);
    }
  }

  /** A confirmed review stays confirmed at its revision, and the terms it confirmed stay. */
  lemma {:induction false} ConfirmedTermsStay(row: Option<Contract>, turns: seq<Turn>)
    requires RowInv(row) && row.Some? && row.value.review.ReviewConfirmed?
    ensures Run(row, turns).Some?
    ensures Run(row, turns).value.review.ReviewConfirmed? && Run(row, turns).value.terms == row.value.terms
    ensures Run(row, turns).value.draftRevision == row.value.draftRevision
    decreases |turns|
  {
    if turns != [] {
      var next := Do(row, turns[0].user, turns[0].found, turns[0].call, turns[0].now).row;
      CallKeepsInv(row, turns[0].user, turns[0].found, turns[0].call, turns[0].now);
      ConfirmedTermsStay(next, turns[1..]);
    }
  }

  /** A refused call changes nothing, except that a confirmation whose approval fails stays written. */
  lemma {:induction false} RefusalsChangeNothing(row: Option<Contract>, u: UserId, m: Match, call: Call, now: int)
    requires RowInv(row) && Do(row, u, m, call, now).error.Some?
    ensures var after := Do(row, u, m, call, now);
            || after.row == row
            || (&& call.ConfirmReview? && after.row.Some? && after.row.value.review.ReviewConfirmed?
                && after.row.value.status.PendingTenantApproval?
                && after.error == ApproveRow(after.row, u, m, call.confirmed, now).error)
  {
  }

  // ---- Who moves the contract ----

  predicate Signable(a: Approval) {
    a.ownerNationalId.Some? && a.tenantNationalId.Some? && a.stored
  }

  /** Which calls are accepted: each is one party's to make, on a row in the right state. */
  lemma {:induction false} CallsAccepted(row: Option<Contract>, u: UserId, m: Match, call: Call, now: int)
    ensures var accepted := Do(row, u, m, call, now).error.None?;
            match call
            case SaveDraft(d) =>
              accepted <==>
              && m.connected && u == m.ownerId && NewTerms(m, d).Ok?
              && (row.Some? ==> !row.value.review.ReviewConfirmed?
                                && (row.value.status.Drafting? || row.value.review.ChangesRequested?))
            case SendForReview =>
              accepted <==> m.connected && u == m.ownerId && row.Some? && row.value.status.Drafting?
            case Approve(a) =>
              accepted <==>
              && m.connected && u == m.tenantId && row.Some?
              && (row.value.status.Approved? || (row.value.status.PendingTenantApproval? && Signable(a)))
            case Reject(_) =>
              accepted <==> m.connected && u == m.tenantId && row.Some? && row.value.status.PendingTenantApproval?
            case RequestChanges(message) =>
              accepted <==>
              u == m.tenantId && row.Some? && row.value.review.PendingReview? && |Trim(message)| >= 5
            case ConfirmReview(expected, a) =>
              accepted <==>
              && u == m.tenantId && row.Some?
              && (row.value.status.Approved?
                  || (&& m.connected && Signable(a)
                      && (row.value.review.ReviewConfirmed?
                          || (row.value.review.PendingReview? && row.value.draftRevision == expected))))
  {
  }

  /** Whoever is not of the match finds nothing; its other party is told that the call is not theirs. */
  lemma {:induction false} OthersAreRefused(row: Option<Contract>, u: UserId, m: Match, call: Call, now: int)
    requires call.SaveDraft? || call.SendForReview? || call.Approve? || call.Reject?
    ensures var error := Do(row, u, m, call, now).error;
            && (!m.connected || (u != m.ownerId && u != m.tenantId) ==> error == Some(NotFound))
            && (m.connected && m.ownerId != m.tenantId ==>
                  if call.SaveDraft? || call.SendForReview? then u == m.tenantId ==> error == Some(Forbidden)
                  else u == m.ownerId ==> error == Some(Forbidden))
  {
  }

  /** The first draft, and every new revision, is the owner's; the rest of the row follows from it. */
  lemma {:induction false} DraftsAreTheOwners(row: Option<Contract>, u: UserId, m: Match, call: Call, now: int)
    ensures var after := Do(row, u, m, call, now).row;
            after != row && (row.None? || after.None? || after.value.terms != row.value.terms
                             || after.value.draftRevision != row.value.draftRevision) ==>
              && call.SaveDraft? && u == m.ownerId && m.connected && NewTerms(m, call.draft).Ok? && after.Some?
              && var c := after.value;
                 && c.terms == NewTerms(m, call.draft).value && c.generatedBy == u
                 && c.status.Drafting? && c.review.PendingReview?
                 && c.tenantChangeRequest.None? && c.tenantChangeRequestedAt.None?
                 && c.draftRevision == (if row.None? then 1 else row.value.draftRevision + 1)
                 && (row.None? ==> c.pdf.None? && c.tenantReviewedRevision.None? && c.changeRequestNote.None?)
  {
  }

  /** Every other change of the row is the move of one party, made by the call that is for it. */
  lemma {:induction false} MovesAreTheParties(c: Contract, u: UserId, m: Match, call: Call, now: int)
    ensures var d := Do(Some(c), u, m, call, now).row.value;
            && (c.status.Drafting? && !d.status.Drafting? ==>
                  (call.SendForReview? && u == m.ownerId) || (call.ConfirmReview? && u == m.tenantId))
            && (!c.status.Drafting? && d.status.Drafting? ==>
                  || (call.Reject? && u == m.tenantId && c.status.PendingTenantApproval?)
                  || (call.SaveDraft? && u == m.ownerId && c.review.ChangesRequested?))
            && (!c.review.ReviewConfirmed? && d.review.ReviewConfirmed? ==>
                  && u == m.tenantId
                  && ((call.Approve? && c.status.PendingTenantApproval?)
                      || (call.ConfirmReview? && call.expectedRevision == c.draftRevision))
                  && d.tenantReviewedRevision == Some(c.draftRevision))
            && (!c.review.ChangesRequested? && d.review.ChangesRequested? ==>
                  && call.RequestChanges? && u == m.tenantId
                  && d == c.(review := ChangesRequested, tenantChangeRequest := Some(Trim(call.message)),
                             tenantChangeRequestedAt := Some(now)))
            && (c.review.ChangesRequested? && !d.review.ChangesRequested? ==>
                  (call.SaveDraft? && u == m.ownerId) || (call.Approve? && u == m.tenantId))
            && (call.SendForReview? ==> d == c || d == c.(status := PendingTenantApproval, changeRequestNote := None))
            && (call.Reject? ==>
                  || d == c
                  || (&& d == c.(status := Drafting, changeRequestNote := d.changeRequestNote)
                      && d.changeRequestNote == if call.note.None? || Trim(call.note.value) == [] then None
                                                else Some(Trim(call.note.value))))
  {
  }

  /** A contract is approved by its tenant, with both identities; the document is of the terms that stood there. */
  lemma {:induction false} ApprovalIsTheTenants(c: Contract, u: UserId, m: Match, call: Call, now: int)
    ensures var d := Do(Some(c), u, m, call, now).row.value;
            !c.status.Approved? && d.status.Approved? ==>
              && u == m.tenantId && m.connected && (call.Approve? || call.ConfirmReview?)
              && var a := if call.Approve? then call.approval else call.confirmed;
                 && Signable(a)
                 && d.pdf == Some(Pdf(c.terms, a.ownerNationalId.value, a.tenantNationalId.value, now))
                 && d.generatedBy == u && d.terms == c.terms && d.tenantReviewedRevision == Some(c.draftRevision)
                 && d.tenantReviewConfirmedAt.Some?
                 && (c.review.ReviewConfirmed? ==>
                       d.tenantReviewConfirmedAt == if c.tenantReviewConfirmedAt.Some? then c.tenantReviewConfirmedAt
                                                    else Some(now))
  {
  }

  predicate IsApproved(row: Option<Contract>) {
    row.Some? && row.value.status.Approved?
  }

  /** So a contract that a run leaves approved was approved in one of its turns, by the tenant of the match. */
  lemma {:induction false} ApprovedByTenant(row: Option<Contract>, turns: seq<Turn>) returns (j: nat)
    requires !IsApproved(row) && IsApproved(Run(row, turns))
    ensures j < |turns| && turns[j].user == turns[j].found.tenantId
    ensures !IsApproved(Run(row, turns[..j])) && IsApproved(Run(row, turns[..j + 1]))
    decreases |turns|
  {
    var t := turns[0];
    var next := Do(row, t.user, t.found, t.call, t.now).row;
    assert turns[..1] == [t] && [t][1..] == [] && turns[..0] == [];
    if IsApproved(next) {
      j := 0;
      if row.Some? {
        ApprovalIsTheTenants(row.value, t.user, t.found, t.call, t.now);
      } else {
        DraftsAreTheOwners(row, t.user, t.found, t.call, t.now);
      }
    } else {
      var i := ApprovedByTenant(next, turns[1..]);
      j := i + 1;
      assert turns[..j][1..] == turns[1..][..i] && turns[..j + 1][1..] == turns[1..][..i + 1];
    }
  }

  // ---- The flags of a response ----

  predicate CanEdit(c: Contract, u: UserId, m: Match) {
    u == m.ownerId && c.status.Drafting? && !c.review.ReviewConfirmed?
  }

  predicate CanRequestChanges(c: Contract, u: UserId, m: Match) {
    u == m.tenantId && c.status.Drafting? && c.review.PendingReview?
  }

  predicate CanConfirmReview(c: Contract, u: UserId, m: Match) {
    u == m.tenantId && !c.status.Approved? && (c.review.PendingReview? || c.review.ReviewConfirmed?)
  }

  predicate CanDownloadPdf(c: Contract) {
    c.status.Approved? && c.pdf.Some?
  }

  function DownloadPdf(c: Contract, u: UserId, m: Match): Result<Terms, LeaseError> {
    if u != m.tenantId && u != m.ownerId then Err(Forbidden)
    else if c.status.Approved? then Ok(c.terms)
    else if !c.status.Drafting? || !c.review.ReviewConfirmed? then Err(PdfNeedsConfirmedReview)
    else Ok(c.terms)
  }

  /**
   With a sound draft, the flag says exactly when a draft that is not sent may be saved; saving is accepted
   besides only to answer a change request on a draft already sent.
   */
  lemma {:induction false} EditFlag(c: Contract, u: UserId, m: Match, d: Draft, now: int)
    requires m.connected && NewTerms(m, d).Ok?
    ensures var accepted := Do(Some(c), u, m, SaveDraft(d), now).error.None?;
            && (CanEdit(c, u, m) <==> accepted && c.status.Drafting?)
            && (accepted && !c.status.Drafting? <==>
                  u == m.ownerId && !c.status.Drafting? && c.review.ChangesRequested?)
  {
  }

  /** With a long enough message the flag says the same of a draft that is not sent; one that is may be answered too. */
  lemma {:induction false} RequestChangesFlag(c: Contract, u: UserId, m: Match, message: string, now: int)
    requires |Trim(message)| >= 5
    ensures var accepted := Do(Some(c), u, m, RequestChanges(message), now).error.None?;
            && (CanRequestChanges(c, u, m) <==> accepted && c.status.Drafting?)
            && (accepted && !c.status.Drafting? <==>
                  u == m.tenantId && !c.status.Drafting? && c.review.PendingReview?)
  {
  }

  /**
   With the current revision, identities verified and the document stored,
   the flag says exactly when a confirmation goes through and approves.
   */
  lemma {:induction false} ConfirmReviewFlag(c: Contract, u: UserId, m: Match, expected: int, a: Approval, now: int)
    requires m.connected && expected == c.draftRevision
    requires a.ownerNationalId.Some? && a.tenantNationalId.Some? && a.stored
    ensures var after := Do(Some(c), u, m, ConfirmReview(expected, a), now);
            CanConfirmReview(c, u, m) <==>
            !c.status.Approved? && after.error.None? && after.row.value.status.Approved? && after.row.value.pdf.Some?
            && after.row.value.pdf.value.terms == c.terms
  {
  }

  /**
   Over reachable rows the flag says that the contract is approved; a confirmed draft may be downloaded
   besides. Either party gets the terms, and nobody else gets anything.
   */
  lemma {:induction false} DownloadFlag(c: Contract, u: UserId, m: Match)
    requires ContractInv(c)
    ensures CanDownloadPdf(c) <==> c.status.Approved?
    ensures DownloadPdf(c, u, m).Ok? <==>
            (u == m.tenantId || u == m.ownerId)
            && (CanDownloadPdf(c) || (c.status.Drafting? && c.review.ReviewConfirmed?))
    ensures DownloadPdf(c, u, m).Ok? ==>
              DownloadPdf(c, u, m).value == c.terms && c.tenantReviewedRevision == Some(c.draftRevision)
  {
  }
}
