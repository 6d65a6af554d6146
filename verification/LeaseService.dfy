/** The lease service over its table: each handler reads, checks and writes in the code's order. */
module LeaseService {
  import opened Wrappers
  import opened JsText
  import opened LeaseContracts

  type MatchId = string

  function RowOf(contracts: map<MatchId, Contract>, id: MatchId): Option<Contract> {
    if id in contracts then Some(contracts[id]) else None
  }

  /** The table after a call: the row of its match as the handshake says, and the others as they were. */
  function After(before: map<MatchId, Contract>, id: MatchId, turn: Turn): map<MatchId, Contract> {
    var done := Do(RowOf(before, id), turn.user, turn.found, turn.call, turn.now);
    if done.row.Some? then before[id := done.row.value] else before
  }

  predicate Did(before: map<MatchId, Contract>, after: map<MatchId, Contract>, id: MatchId, turn: Turn,
      error: Option<LeaseError>)
  {
    after == After(before, id, turn) && error == Do(RowOf(before, id), turn.user, turn.found, turn.call, turn.now).error
  }

  ghost predicate ContractsInv(contracts: map<MatchId, Contract>) {
    forall id | id in contracts :: ContractInv(contracts[id])
  }

  lemma {:induction false} TurnKeeps(before: map<MatchId, Contract>, id: MatchId, turn: Turn)
    ensures ContractsInv(before) ==> ContractsInv(After(before, id, turn))
  {
    if ContractsInv(before) {
      CallKeepsInv(RowOf(before, id), turn.user, turn.found, turn.call, turn.now);
    }
  }

  class LeaseContractsService {
    var contracts: map<MatchId, Contract>

    constructor ()
      ensures contracts == map[]
    {
      contracts := map[];
    }

    method SaveDraft(u: UserId, id: MatchId, m: Match, dto: Draft, now: int) returns (error: Option<LeaseError>)
      modifies this
      ensures Did(old(contracts), contracts, id, Turn(u, m, Call.SaveDraft(dto), now), error)
      ensures ContractsInv(old(contracts)) ==> ContractsInv(contracts)
      ensures error.None? ==> u == m.ownerId && m.connected && id in contracts && contracts[id].status == Drafting
    {
      TurnKeeps(contracts, id, Turn(u, m, Call.SaveDraft(dto), now));
      assert id in contracts ==> contracts == contracts[id := contracts[id]];
      if !FindsMatch(m, u) {
        return Some(NotFound);
      }
      if u != m.ownerId {
        return Some(Forbidden);
      }
      if id in contracts && contracts[id].review == ReviewConfirmed {
        return Some(ContractDraftLocked);
      }
      if id in contracts && contracts[id].status != Drafting && contracts[id].review != ChangesRequested {
        return Some(DraftLocked);
      }
      var data := NewTerms(m, dto);
      if data.Err? {
        return Some(data.error);
      }
      WriteDraft(u, id, data.value);
      error := None;
    }

    /** The first draft, or a revision of the draft that the checks have passed. */
    method WriteDraft(u: UserId, id: MatchId, t: Terms)
      requires id in contracts ==> !contracts[id].review.ReviewConfirmed?
      modifies this
      ensures var written := SaveWrite(RowOf(old(contracts), id), id in old(contracts), t, u);
              written.Ok? && contracts == old(contracts)[id := written.value]
    {
      if id !in contracts {
        contracts := contracts[id := Contract(t, u, Drafting, PendingReview, None, None, None, 1, None, None, None)];
        return;
      }
      var row := contracts[id];
      row := row.(terms := t, generatedBy := u, status := Drafting);
      row := row.(draftRevision := row.draftRevision + 1, review := PendingReview,
                  tenantChangeRequest := None, tenantChangeRequestedAt := None);
      contracts := contracts[id := row];
    }

    method SendForReview(u: UserId, id: MatchId, m: Match, now: int) returns (error: Option<LeaseError>)
      modifies this
      ensures Did(old(contracts), contracts, id, Turn(u, m, Call.SendForReview, now), error)
      ensures ContractsInv(old(contracts)) ==> ContractsInv(contracts)
      ensures error.None? ==> u == m.ownerId && m.connected && id in contracts && old(contracts)[id].status == Drafting
    {
      TurnKeeps(contracts, id, Turn(u, m, Call.SendForReview, now));
      assert id in contracts ==> contracts == contracts[id := contracts[id]];
      if !FindsMatch(m, u) {
        return Some(NotFound);
      }
      if u != m.ownerId {
        return Some(Forbidden);
      }
      if id !in contracts {
        return Some(NotFound);
      }
      var contract := contracts[id];
      if contract.status != Drafting {
        return Some(NotInDraftingState);
      }
      contracts := contracts[id := contract.(status := PendingTenantApproval, changeRequestNote := None)];
      error := None;
    }

    method Approve(u: UserId, id: MatchId, m: Match, a: Approval, now: int) returns (error: Option<LeaseError>)
      modifies this
      ensures Did(old(contracts), contracts, id, Turn(u, m, Call.Approve(a), now), error)
      ensures ContractsInv(old(contracts)) ==> ContractsInv(contracts)
      ensures error.None? ==> u == m.tenantId && m.connected && id in contracts && contracts[id].status == Approved
    {
      TurnKeeps(contracts, id, Turn(u, m, Call.Approve(a), now));
      assert id in contracts ==> contracts == contracts[id := contracts[id]];
      if !FindsMatch(m, u) {
        return Some(NotFound);
      }
      if u != m.tenantId {
        return Some(Forbidden);
      }
      if id !in contracts {
        return Some(NotFound);
      }
      var contract := contracts[id];
      if contract.status == Approved {
        return None;
      }
      if contract.status != PendingTenantApproval {
        return Some(NotPendingTenantApproval);
      }
      if a.ownerNationalId == None || a.tenantNationalId == None {
        return Some(IdentityNotVerified);
      }
      if !a.stored {
        return Some(PdfNotStored);
      }
      var confirmedAt := if contract.tenantReviewConfirmedAt.Some? then contract.tenantReviewConfirmedAt else Some(now);
      contracts := contracts[id := contract.(
        generatedBy := u,
        pdf := Some(Pdf(contract.terms, a.ownerNationalId.value, a.tenantNationalId.value, now)),
        status := Approved, review := ReviewConfirmed,
        tenantReviewConfirmedAt := confirmedAt, tenantReviewedRevision := Some(contract.draftRevision))];
      error := None;
    }

    method Reject(u: UserId, id: MatchId, m: Match, note: Option<string>, now: int) returns (error: Option<LeaseError>)
      modifies this
      ensures Did(old(contracts), contracts, id, Turn(u, m, Call.Reject(note), now), error)
      ensures ContractsInv(old(contracts)) ==> ContractsInv(contracts)
      ensures error.None? ==>
                && u == m.tenantId && m.connected && id in contracts
                && old(contracts)[id].status == PendingTenantApproval && contracts[id].status == Drafting
    {
      TurnKeeps(contracts, id, Turn(u, m, Call.Reject(note), now));
      assert id in contracts ==> contracts == contracts[id := contracts[id]];
      if !FindsMatch(m, u) {
        return Some(NotFound);
      }
      if u != m.tenantId {
        return Some(Forbidden);
      }
      if id !in contracts {
        return Some(NotFound);
      }
      var contract := contracts[id];
      if contract.status != PendingTenantApproval {
        return Some(NotPendingTenantApproval);
      }
      var kept: Option<string> := None;
      if note.Some? && Trim(note.value) != "" {
        kept := Some(Trim(note.value));
      }
      contracts := contracts[id := contract.(status := Drafting, changeRequestNote := kept)];
      error := None;
    }

    method RequestChanges(u: UserId, id: MatchId, m: Match, text: string, now: int) returns (error: Option<LeaseError>)
      modifies this
      ensures Did(old(contracts), contracts, id, Turn(u, m, Call.RequestChanges(text), now), error)
      ensures ContractsInv(old(contracts)) ==> ContractsInv(contracts)
      ensures error.None? ==> u == m.tenantId && id in contracts && contracts[id].review == ChangesRequested
    {
      TurnKeeps(contracts, id, Turn(u, m, Call.RequestChanges(text), now));
      assert id in contracts ==> contracts == contracts[id := contracts[id]];
      if id !in contracts {
        return Some(NotFound);
      }
      if u != m.tenantId {
        return Some(Forbidden);
      }
      var contract := contracts[id];
      if contract.review == ReviewConfirmed {
        return Some(ReviewAlreadyConfirmed);
      }
      if contract.review == ChangesRequested {
        return Some(ChangesAlreadyRequested);
      }
      var message := Trim(text);
      if |message| < 5 {
        return Some(ChangeRequestTooShort);
      }
      contracts := contracts[id := contract.(review := ChangesRequested, tenantChangeRequest := Some(message),
                                             tenantChangeRequestedAt := Some(now))];
      error := None;
    }

    method ConfirmReview(u: UserId, id: MatchId, m: Match, expectedRevision: int, a: Approval, now: int)
      returns (error: Option<LeaseError>)
      modifies this
      ensures Did(old(contracts), contracts, id, Turn(u, m, Call.ConfirmReview(expectedRevision, a), now), error)
      ensures ContractsInv(old(contracts)) ==> ContractsInv(contracts)
      ensures error.None? ==> u == m.tenantId && id in contracts && contracts[id].status == Approved
    {
      TurnKeeps(contracts, id, Turn(u, m, Call.ConfirmReview(expectedRevision, a), now));
      assert id in contracts ==> contracts == contracts[id := contracts[id]];
      if id !in contracts {
        return Some(NotFound);
      }
      if u != m.tenantId {
        return Some(Forbidden);
      }
      var contract := contracts[id];
      if contract.status == Approved {
        return None;
      }
      if contract.review == ReviewConfirmed {
        contracts := contracts[id := contract.(status := PendingTenantApproval)];
      } else {
        if contract.review == ChangesRequested {
          return Some(ChangesPending);
        }
        if expectedRevision != contract.draftRevision {
          return Some(RevisionChanged);
        }
        contracts := contracts[id := contract.(
          status := PendingTenantApproval, review := ReviewConfirmed, tenantReviewConfirmedAt := Some(now),
          tenantReviewedRevision := Some(expectedRevision), tenantChangeRequest := None,
          tenantChangeRequestedAt := None)];
      }
      error := Approve(u, id, m, a, now);
    }
  }
}
