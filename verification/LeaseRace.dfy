/**
 The same handlers with their reads and writes pulled apart: between the read of one call and its write
 any other call may read or write. Drafts are saved, changes are requested, reviews are confirmed and
 approved; sending for review and rejecting, which write without a condition, are not interleaved.
 */
module LeaseRace {
  import opened Wrappers
  import opened JsText
  import opened LeaseContracts

  type CallId = int

  /** A call between its read and its write, with what it carries over. */
  datatype Half =
    | Saving(existed: bool, terms: Terms, owner: UserId)
    | Requesting(message: string)
    | Confirming(expected: int)
    | Recovering
    | Approving(read: Contract, pdf: Pdf, tenant: UserId)

  datatype System = System(row: Option<Contract>, inFlight: map<CallId, Half>)

  datatype Start = StartSave(draft: Draft) | StartRequest(message: string) | StartConfirm(expected: int)
      | StartApprove(approval: Approval)

  /** One step: a call reads, or a call that has read writes. The approval after a confirmation is a call of its own. */
  datatype Step =
    | Read(id: CallId, user: UserId, found: Match, start: Start, readAt: int)
    | Write(id: CallId, writtenAt: int)

  function HalfOf(row: Option<Contract>, u: UserId, m: Match, start: Start, now: int): Option<Half> {
    match start
    case StartSave(d) =>
      var check := SaveCheck(row, u, m, d);
      if check.Ok? then Some(Saving(row.Some?, check.value, u)) else None
    case StartRequest(message) =>
      var check := RequestCheck(row, u, m, message);
      if check.Ok? then Some(Requesting(check.value)) else None
    case StartConfirm(expected) =>
      var check := ConfirmCheck(row, u, m, expected);
      if check.Ok? && check.value.Recover? then Some(Recovering)
      else if check.Ok? && check.value.Confirm? then Some(Confirming(expected))
      else None
    case StartApprove(a) =>
      var check := ApproveCheck(row, u, m, a, now);
      if check.Ok? && check.value.Some? then Some(Approving(row.value, check.value.value, u)) else None
  }

  /** The row after the write of a call; a write that meets no row changes nothing. */
  function Written(row: Option<Contract>, half: Half, now: int): Option<Contract> {
    match half
    case Saving(existed, t, u) =>
      var written := SaveWrite(row, existed, t, u);
      if written.Ok? then Some(written.value) else row
    case Requesting(message) =>
      if row.None? then None
      else
        var written := RequestWrite(row.value, message, now);
        if written.Ok? then Some(written.value) else row
    case Confirming(expected) =>
      if row.None? then None
      else
        var written := ConfirmWrite(row.value, expected, now);
        if written.Ok? then Some(written.value) else row
    case Recovering => if row.None? then None else Some(RecoverWrite(row.value))
    case Approving(read, pdf, u) => if row.None? then None else Some(ApproveWrite(row.value, read, pdf, u, now))
  }

  function Take(s: System, step: Step): System {
    match step
    case Read(id, u, m, start, now) =>
      var half := HalfOf(s.row, u, m, start, now);
      if id in s.inFlight || half.None? then s else s.(inFlight := s.inFlight[id := half.value])
    case Write(id, now) =>
      if id !in s.inFlight then s
      else System(Written(s.row, s.inFlight[id], now), s.inFlight - {id})
  }

  function Run(s: System, steps: seq<Step>): System
    decreases |steps|
  {
    if steps == [] then s else Run(Take(s, steps[0]), steps[1..])
  }

  lemma {:induction false} RunSplits(s: System, steps: seq<Step>, more: seq<Step>)
    ensures Run(s, steps + more) == Run(Run(s, steps), more)
    decreases |steps|
  {
    if steps == [] {
      assert steps + more == more;
    } else {
      assert (steps + more)[0] == steps[0] && (steps + more)[1..] == steps[1..] + more;
      RunSplits(Take(s, steps[0]), steps[1..], more);
    }
  }

  /** A call that nothing comes in between is the handler as a whole. */
  lemma {:induction false} UndisturbedCallsAreWhole(row: Option<Contract>, u: UserId, m: Match, start: Start, now: int)
    requires !start.StartConfirm?
    ensures var call := match start
                        case StartSave(d) => SaveDraft(d)
                        case StartRequest(message) => RequestChanges(message)
                        case StartApprove(a) => Approve(a)
                        case StartConfirm(expected) => SendForReview;
            Run(System(row, map[]), [Read(0, u, m, start, now), Write(0, now)])
            == System(Do(row, u, m, call, now).row, map[])
  {
    RunOfTwo(System(row, map[]), Read(0, u, m, start, now), Write(0, now));
    var between := Take(System(row, map[]), Read(0, u, m, start, now));
    assert between.inFlight - {0} == map[];
  }

  /** A confirmation is confirmed by its two halves, and approved by those of the approval behind it. */
  lemma {:induction false} UndisturbedConfirmationIsWhole(row: Option<Contract>, u: UserId, m: Match, expected: int,
      a: Approval, now: int)
    requires var check := ConfirmCheck(row, u, m, expected); check.Ok? && !check.value.AlreadyApproved?
    ensures var confirmed := Run(System(row, map[]), [Read(0, u, m, StartConfirm(expected), now), Write(0, now)]);
            && confirmed.inFlight == map[]
            && Run(confirmed, [Read(0, u, m, StartApprove(a), now), Write(0, now)]).row
               == Do(row, u, m, ConfirmReview(expected, a), now).row
  {
    var s := System(row, map[]);
    RunOfTwo(s, Read(0, u, m, StartConfirm(expected), now), Write(0, now));
    var between := Take(s, Read(0, u, m, StartConfirm(expected), now));
    assert between.inFlight - {0} == map[];
    UndisturbedCallsAreWhole(Take(between, Write(0, now)).row, u, m, StartApprove(a), now);
  }

  lemma {:induction false} RunOfTwo(s: System, first: Step, second: Step)
    ensures Run(s, [first, second]) == Take(Take(s, first), second)
  {
    assert [first, second][1..] == [second] && [second][1..] == [];
    assert Run(Take(s, first), [second]) == Run(Take(Take(s, first), second), []);
  }

  /** Drafts are read to be saved by the owner, everything else by the tenant. */
  predicate ReadByParty(half: Half, u: UserId, m: Match) {
    match half
    case Saving(_, _, owner) => u == m.ownerId == owner && m.connected
    case Approving(_, _, tenant) => u == m.tenantId == tenant && m.connected
    case _ => u == m.tenantId
  }

  lemma {:induction false} ReadsAreTheParties(row: Option<Contract>, u: UserId, m: Match, start: Start, now: int)
    ensures var half := HalfOf(row, u, m, start, now);
            && (half.Some? ==>
                  && ReadByParty(half.value, u, m)
                  && (half.value.Saving? <==> start.StartSave?) && (half.value.Requesting? <==> start.StartRequest?)
                  && (half.value.Approving? <==> start.StartApprove?)
                  && (half.value.Approving? ==>
                        && row == Some(half.value.read) && half.value.read.status.PendingTenantApproval?
                        && half.value.pdf.terms == half.value.read.terms))
  {
  }

  /** Whatever is in flight after some steps was read in one of them, by the party whose call it is. */
  lemma {:induction false} InFlightWasRead(row: Option<Contract>, steps: seq<Step>, id: CallId) returns (j: nat)
    requires id in Run(System(row, map[]), steps).inFlight
    ensures j < |steps| && steps[j].Read? && steps[j].id == id
    ensures ReadByParty(Run(System(row, map[]), steps).inFlight[id], steps[j].user, steps[j].found)
    decreases |steps|
  {
    var n := |steps| - 1;
    var before := Run(System(row, map[]), steps[..n]);
    assert steps == steps[..n] + [steps[n]] && [steps[n]][1..] == [];
    RunSplits(System(row, map[]), steps[..n], [steps[n]]);
    assert Run(before, [steps[n]]) == Take(before, steps[n]);
    if id in before.inFlight {
      j := InFlightWasRead(row, steps[..n], id);
    } else {
      j := n;
      ReadsAreTheParties(before.row, steps[n].user, steps[n].found, steps[n].start, steps[n].readAt);
    }
  }

  /**
   What the row satisfies between any two steps: beyond the invariant
   of whole calls, only a confirmed draft has left drafting.
   */
  ghost predicate RaceRow(c: Contract) {
    ContractInv(c) && (!c.status.Drafting? ==> c.review.ReviewConfirmed?)
  }

  /**
   A call in flight was right when it read, and what it read
   cannot have gone stale in a way its write would not see.
   */
  ghost predicate HalfInv(row: Option<Contract>, half: Half) {
    match half
    case Saving(existed, t, _) => TermsOk(t) && (existed ==> row.Some?)
    case Requesting(message) => row.Some? && |message| >= 5
    case Confirming(_) => row.Some?
    case Recovering => row.Some? && row.value.review.ReviewConfirmed?
    case Approving(read, pdf, _) =>
      && row.Some? && row.value.review.ReviewConfirmed?
      && row.value.terms == read.terms == pdf.terms && row.value.draftRevision == read.draftRevision
  }

  ghost predicate SystemInv(s: System) {
    && (s.row.Some? ==> RaceRow(s.row.value))
    && forall id | id in s.inFlight :: HalfInv(s.row, s.inFlight[id])
  }

  /** What one write may do to a row: keep a confirmed draft, and rewrite the terms only under a new revision. */
  ghost predicate Follows(before: Option<Contract>, after: Option<Contract>) {
    before.Some? ==>
      && after.Some?
      && before.value.draftRevision <= after.value.draftRevision
      && (before.value.draftRevision == after.value.draftRevision ==> before.value.terms == after.value.terms)
      && (before.value.review.ReviewConfirmed? ==>
          after.value.review.ReviewConfirmed? && after.value.draftRevision == before.value.draftRevision)
      && (before.value.status.Approved? ==> after.value.status.Approved?)
  }

  lemma {:induction false} ReadMakesHalf(row: Option<Contract>, u: UserId, m: Match, start: Start, now: int)
    requires row.Some? ==> RaceRow(row.value)
    ensures HalfOf(row, u, m, start, now).Some? ==> HalfInv(row, HalfOf(row, u, m, start, now).value)
  {
    if start.StartSave? && NewTerms(m, start.draft).Ok? {
      StoredTermsAreSound(m, start.draft);
    }
  }

  lemma {:induction false} WriteFollows(row: Option<Contract>, half: Half, now: int)
    requires row.Some? ==> RaceRow(row.value)
    requires HalfInv(row, half)
    ensures Written(row, half, now).Some? ==> RaceRow(Written(row, half, now).value)
    ensures Follows(row, Written(row, half, now))
  {
  }

  /** A call waiting to write is not misled by another call's write. */
  lemma {:induction false} WaitingStaysRight(before: Option<Contract>, after: Option<Contract>, half: Half)
    requires Follows(before, after) && HalfInv(before, half)
    ensures HalfInv(after, half)
  {
  }

  lemma {:induction false} StepKeepsInv(s: System, step: Step)
    requires SystemInv(s)
    ensures SystemInv(Take(s, step)) && Follows(s.row, Take(s, step).row)
  {
    match step
    case Read(id, u, m, start, now) =>
      ReadMakesHalf(s.row, u, m, start, now);
    case Write(id, now) =>
      if id in s.inFlight {
        var t := Take(s, step);
        WriteFollows(s.row, s.inFlight[id], now);
        forall other | other in t.inFlight ensures HalfInv(t.row, t.inFlight[other]) {
          WaitingStaysRight(s.row, t.row, s.inFlight[other]);
        }
      }
  }

  lemma {:induction false} RunsKeepInv(s: System, steps: seq<Step>)
    requires SystemInv(s)
    ensures SystemInv(Run(s, steps)) && Follows(s.row, Run(s, steps).row)
    decreases |steps|
  {
    if steps != [] {
      StepKeepsInv(s, steps[0]);
      RunsKeepInv(Take(s, steps[0]), steps[1..]);
    }
  }

  /**
   However the calls interleave, a confirmed review stays confirmed; its terms and its revision are
   never touched again, and any document, now or later, is of exactly these terms.
   */
  lemma {:induction false} ConfirmedForGood(steps: seq<Step>, later: seq<Step>)
    requires var s := Run(System(None, map[]), steps);
             s.row.Some? && s.row.value.review.ReviewConfirmed?
    ensures var c := Run(System(None, map[]), steps).row.value;
            var d := Run(Run(System(None, map[]), steps), later).row;
            && c.tenantReviewedRevision == Some(c.draftRevision)
            && d.Some? && d.value.review.ReviewConfirmed?
            && d.value.terms == c.terms && d.value.draftRevision == c.draftRevision
            && d.value.tenantReviewedRevision == Some(c.draftRevision)
            && (d.value.pdf.Some? ==> d.value.pdf.value.terms == c.terms)
  {
    RunsKeepInv(System(None, map[]), steps);
    RunsKeepInv(Run(System(None, map[]), steps), later);
  }

  /** A tenant who read a revision and confirms that revision later confirms the very terms read. */
  lemma {:induction false} ConfirmsWhatWasRead(steps: seq<Step>, between: seq<Step>, now: int)
    requires Run(System(None, map[]), steps).row.Some?
    ensures var read := Run(System(None, map[]), steps).row.value;
            var current := Run(Run(System(None, map[]), steps), between).row;
            && current.Some?
            && (current.value.review.PendingReview? ==>
                var confirmed := ConfirmWrite(current.value, read.draftRevision, now);
                confirmed.Ok?
                <==> current.value.terms == read.terms
                     && current.value.draftRevision == read.draftRevision)
  {
    RunsKeepInv(System(None, map[]), steps);
    RunsKeepInv(Run(System(None, map[]), steps), between);
  }

  // ---- Where the guarantee ends ----

  ghost predicate Disagrees(s: System) {
    s.row.Some? && s.row.value.review.ReviewConfirmed?
      && s.row.value.tenantReviewedRevision != Some(s.row.value.draftRevision)
  }

  /** One call read and written with nothing of its number in between. */
  function Whole(id: CallId, u: UserId, m: Match, start: Start): seq<Step> {
    [Read(id, u, m, start, 0), Write(id, 0)]
  }

  lemma {:induction false} RunOfWhole(s: System, id: CallId, u: UserId, m: Match, start: Start)
    requires id !in s.inFlight && HalfOf(s.row, u, m, start, 0).Some?
    ensures Run(s, Whole(id, u, m, start)) == System(Written(s.row, HalfOf(s.row, u, m, start, 0).value, 0), s.inFlight)
  {
    var read, write := Read(id, u, m, start, 0), Write(id, 0);
    var between := Take(s, read);
    assert Whole(id, u, m, start)[1..] == [write] && [write][1..] == [];
    assert Run(Take(between, write), []) == Take(between, write);
    assert Run(between, [write]) == Run(Take(between, write), []);
    assert between.inFlight - {id} == s.inFlight;
  }

  /** The change request that unlocks a sent draft, where it is still to be made. */
  function Unlock(c: Contract, m: Match, message: string): seq<Step> {
    if c.review.PendingReview? then Whole(1, m.tenantId, m, StartRequest(message)) else []
  }

  /** An approval reads a draft that was sent but not confirmed; the owner revises it; the approval writes. */
  function StaleApproval(c: Contract, m: Match, d: Draft, message: string, a: Approval): seq<Step> {
    [Read(0, m.tenantId, m, StartApprove(a), 0)] + Unlock(c, m, message) + Whole(2, m.ownerId, m, StartSave(d))
      + [Write(0, 0)]
  }

  lemma {:induction false} Unlocks(s: System, c: Contract, m: Match, message: string)
    requires s.row == Some(c) && 1 !in s.inFlight && !c.review.ReviewConfirmed? && |Trim(message)| >= 5
    ensures var t := Run(s, Unlock(c, m, message));
            t.inFlight == s.inFlight && t.row.Some? && t.row.value.review.ChangesRequested?
              && t.row.value.draftRevision == c.draftRevision
  {
    if c.review.PendingReview? {
      RunOfWhole(s, 1, m.tenantId, m, StartRequest(message));
    }
  }

  lemma {:induction false} Revises(s: System, m: Match, d: Draft)
    requires s.row.Some? && s.row.value.review.ChangesRequested? && 2 !in s.inFlight
    requires m.connected && NewTerms(m, d).Ok?
    ensures var t := Run(s, Whole(2, m.ownerId, m, StartSave(d)));
            t.inFlight == s.inFlight && t.row.Some? && t.row.value.draftRevision == s.row.value.draftRevision + 1
  {
    RunOfWhole(s, 2, m.ownerId, m, StartSave(d));
  }

  lemma {:induction false} ReadsApproval(c: Contract, m: Match, a: Approval)
    requires c.status.PendingTenantApproval? && m.connected && m.ownerId != m.tenantId
    requires a.ownerNationalId.Some? && a.tenantNationalId.Some? && a.stored
    ensures var pdf := Pdf(c.terms, a.ownerNationalId.value, a.tenantNationalId.value, 0);
            Run(System(Some(c), map[]), [Read(0, m.tenantId, m, StartApprove(a), 0)])
            == System(Some(c), map[0 := Approving(c, pdf, m.tenantId)])
  {
    assert [Read(0, m.tenantId, m, StartApprove(a), 0)][1..] == [];
  }

  lemma {:induction false} WritesStale(s: System, read: Contract, pdf: Pdf, u: UserId)
    requires 0 in s.inFlight && s.inFlight[0] == Approving(read, pdf, u) && s.row.Some?
    requires s.row.value.draftRevision != read.draftRevision
    ensures Disagrees(Run(s, [Write(0, 0)]))
  {
    assert [Write(0, 0)][1..] == [];
    assert Run(s, [Write(0, 0)]) == Take(s, Write(0, 0));
  }

  lemma {:induction false} StaleApprovalDisagrees(c: Contract, m: Match, d: Draft, message: string, a: Approval)
    requires c.status.PendingTenantApproval? && !c.review.ReviewConfirmed?
    requires m.connected && m.ownerId != m.tenantId && NewTerms(m, d).Ok? && |Trim(message)| >= 5
    requires a.ownerNationalId.Some? && a.tenantNationalId.Some? && a.stored
    ensures Disagrees(Run(System(Some(c), map[]), StaleApproval(c, m, d, message, a)))
  {
    var s0 := System(Some(c), map[]);
    var read, unlock, save := [Read(0, m.tenantId, m, StartApprove(a), 0)], Unlock(c, m, message),
      Whole(2, m.ownerId, m, StartSave(d));
    RunSplits(s0, read, unlock);
    RunSplits(s0, read + unlock, save);
    RunSplits(s0, read + unlock + save, [Write(0, 0)]);
    ReadsApproval(c, m, a);
    var s1 := Run(s0, read);
    Unlocks(s1, c, m, message);
    var s2 := Run(s1, unlock);
    Revises(s2, m, d);
    var pdf := Pdf(c.terms, a.ownerNationalId.value, a.tenantNationalId.value, 0);
    WritesStale(Run(s2, save), c, pdf, m.tenantId);
  }

  ghost predicate AlwaysAgrees(c: Contract) {
    forall steps :: !Disagrees(Run(System(Some(c), map[]), steps))
  }

  lemma {:induction false} AgreesInEveryRun(c: Contract)
    requires ContractInv(c) && (c.status.Drafting? || c.review.ReviewConfirmed?)
    ensures AlwaysAgrees(c)
  {
    forall steps ensures !Disagrees(Run(System(Some(c), map[]), steps)) {
      RunsKeepInv(System(Some(c), map[]), steps);
    }
  }

  lemma {:induction false} DisagreesInOneRun(c: Contract, steps: seq<Step>)
    requires Disagrees(Run(System(Some(c), map[]), steps))
    ensures !AlwaysAgrees(c)
  {
  }

  /**
   The exact boundary: from a draft at rest no interleaving makes the confirmed revision differ from
   the drafted one if and only if the draft has not been sent without being confirmed.
   */
  lemma {:induction false} AgreesUnlessSentUnconfirmed(c: Contract, m: Match, d: Draft, message: string, a: Approval)
    requires ContractInv(c)
    requires m.connected && m.ownerId != m.tenantId && NewTerms(m, d).Ok? && |Trim(message)| >= 5
    requires a.ownerNationalId.Some? && a.tenantNationalId.Some? && a.stored
    ensures AlwaysAgrees(c) <==> c.status.Drafting? || c.review.ReviewConfirmed?
  {
    if c.status.Drafting? || c.review.ReviewConfirmed? {
      AgreesInEveryRun(c);
    } else {
      StaleApprovalDisagrees(c, m, d, message, a);
      DisagreesInOneRun(c, StaleApproval(c, m, d, message, a));
    }
  }
}
