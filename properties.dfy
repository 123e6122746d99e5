/**
  What the registry promises, stated about the transition functions: the
  outcome of each call (which check fails first, what a success writes), and
  what holds over any sequence of calls (permanent index entries, terminal
  statuses, a one-shot authority binding, the approver cap).
 */
module RegistryProperties {
  import opened Registry
  import opened RegistryInvariants
  import opened KeyStrings

  // ---------------------------------------------------------------------------
  // Logging a contribution

  /**
    A log succeeds exactly when all five checks pass; it then answers with the
    old counter, bumps the counter by one, stores a fresh pending record under
    that id (no existing record is overwritten) and indexes the caller's
    (volunteer, project) pair to it. Nothing else changes.
   */
  lemma LogContributionOutcome(s: State, caller: Principal, blockHeight: int, projectId: int,
                               hours: int, evidenceHash: seq<byte>)
    requires Inv(s)
    ensures var t := LogContribution(s, caller, blockHeight, projectId, hours, evidenceHash);
      && (t.reply.ok <==>
            && projectId > 0
            && caller != BurnPrincipal
            && 1 <= hours <= MaxHours
            && |evidenceHash| > 0
            && (caller, projectId) !in s.contributionsByVolunteer)
      && (t.reply.ok ==>
            var id := s.nextContribId;
            && t.reply.value == Num(id)
            && t.next.nextContribId == s.nextContribId + 1
            && id !in s.contributions
            && t.next.contributions.Keys == s.contributions.Keys + {id}
            && (forall j :: j in s.contributions ==> t.next.contributions[j] == s.contributions[j])
            && GetContribution(t.next, id)
               == Some(Contribution(caller, projectId, hours, evidenceHash, blockHeight, Pending, [], 0))
            && t.next.contributionsByVolunteer == s.contributionsByVolunteer[(caller, projectId) := id]
            && t.next.minApprovals == s.minApprovals
            && t.next.maxApprovers == s.maxApprovers
            && t.next.authorityContract == s.authorityContract)
  {
  }

  /** The five checks run in a fixed order and the first that fails names the error; a failure changes nothing. */
  lemma LogContributionChecksInOrder(s: State, caller: Principal, blockHeight: int, projectId: int,
                                     hours: int, evidenceHash: seq<byte>)
    ensures var t := LogContribution(s, caller, blockHeight, projectId, hours, evidenceHash);
      && (!t.reply.ok ==> t.next == s)
      && (projectId <= 0 ==> t.reply == Fail(ErrInvalidProjectId))
      && (projectId > 0 && caller == BurnPrincipal ==> t.reply == Fail(ErrInvalidVolunteer))
      && (projectId > 0 && caller != BurnPrincipal && !(1 <= hours <= MaxHours) ==>
            t.reply == Fail(ErrInvalidHours))
      && (projectId > 0 && caller != BurnPrincipal && 1 <= hours <= MaxHours && |evidenceHash| == 0 ==>
            t.reply == Fail(ErrInvalidEvidenceHash))
      && ((projectId > 0 && caller != BurnPrincipal && 1 <= hours <= MaxHours && |evidenceHash| > 0
           && (caller, projectId) in s.contributionsByVolunteer) ==>
            t.reply == Fail(ErrContribAlreadyExists))
  {
  }

  /** No call removes or redirects an index entry. */
  lemma ApplyKeepsIndexEntry(s: State, op: Op, k: VolunteerKey)
    requires k in s.contributionsByVolunteer
    ensures var s' := Apply(s, op).next;
      k in s'.contributionsByVolunteer && s'.contributionsByVolunteer[k] == s.contributionsByVolunteer[k]
  {
  }

  /** Index entries are permanent: whatever calls follow, the pair stays indexed to the same id. */
  lemma {:induction false} IndexEntriesArePermanent(s: State, ops: seq<Op>, k: VolunteerKey)
    requires k in s.contributionsByVolunteer
    ensures k in Run(s, ops).contributionsByVolunteer
    ensures Run(s, ops).contributionsByVolunteer[k] == s.contributionsByVolunteer[k]
    decreases |ops|
  {
    if ops != [] {
      ApplyKeepsIndexEntry(s, ops[0], k);
      IndexEntriesArePermanent(Apply(s, ops[0]).next, ops[1..], k);
    }
  }

  /**
    Once a (volunteer, project) pair has been logged, every later log of that
    pair fails and changes nothing, with 105 once the hours and evidence are
    valid, whatever became of the first record (verified, rejected or pending).
   */
  lemma DuplicateLogAlwaysFails(s: State, caller: Principal, projectId: int, ops: seq<Op>,
                                blockHeight: int, hours: int, evidenceHash: seq<byte>,
                                laterHeight: int, laterHours: int, laterEvidence: seq<byte>)
    requires LogContribution(s, caller, blockHeight, projectId, hours, evidenceHash).reply.ok
    ensures var later := Run(LogContribution(s, caller, blockHeight, projectId, hours, evidenceHash).next, ops);
      var t := LogContribution(later, caller, laterHeight, projectId, laterHours, laterEvidence);
      && !t.reply.ok
      && t.next == later
      && (1 <= laterHours <= MaxHours && |laterEvidence| > 0 ==> t.reply == Fail(ErrContribAlreadyExists))
  {
    var first := LogContribution(s, caller, blockHeight, projectId, hours, evidenceHash).next;
    IndexEntriesArePermanent(first, ops, (caller, projectId));
  }

  /** One record per (volunteer, project) pair: two ids holding the same pair are the same id. */
  lemma AtMostOneRecordPerPair(s: State, id1: int, id2: int)
    requires Inv(s)
    requires id1 in s.contributions && id2 in s.contributions
    requires KeyOf(s.contributions[id1]) == KeyOf(s.contributions[id2])
    ensures id1 == id2
  {
  }

  /**
    The lookup by (volunteer, project) answers with the id of the record whose
    string key equals the string the lookup builds, except that a record
    stored under id 0 is reported as absent. For a negative project id that
    record belongs to another pair: `("A", -1)` finds the record of `("A-", 1)`.
   */
  lemma LookupByVolunteerAgreesWithRecords(s: State, volunteer: Principal, projectId: int)
    requires Inv(s)
    ensures var r := GetContributionByVolunteer(s, volunteer, projectId);
      && (r.Some? ==> r.value != 0 && r.value in s.contributions
                      && KeyOf(s.contributions[r.value]) == LookupKey(volunteer, projectId)
                      && RecordKeyString(s.contributions[r.value]) == KeyString(volunteer, projectId))
      && (r.None? ==> forall id :: (id in s.contributions && RecordKeyString(s.contributions[id])
                                    == KeyString(volunteer, projectId)) ==> id == 0)
  {
    var r := GetContributionByVolunteer(s, volunteer, projectId);
    if r.Some? {
      LookupKeyMatchesKeyString(volunteer, projectId, KeyOf(s.contributions[r.value]));
    } else {
      forall id | id in s.contributions && RecordKeyString(s.contributions[id]) == KeyString(volunteer, projectId)
        ensures id == 0
      {
        LookupKeyMatchesKeyString(volunteer, projectId, KeyOf(s.contributions[id]));
      }
    }
  }

  // ---------------------------------------------------------------------------
  // Approving a contribution

  /**
    An approval succeeds exactly when the record exists, the caller is not the
    burn principal, the record is pending, the caller has not approved it yet
    and it has fewer approvers than the cap. It then appends the caller, keeps
    `approvalCount == |approvers|` and the approvers distinct, leaves the
    record's immutable fields, every other record, the index and the
    configuration as they were.
   */
  lemma VerifyContributionOutcome(s: State, caller: Principal, contribId: int)
    requires Inv(s)
    ensures var t := VerifyContribution(s, caller, contribId);
      && (t.reply.ok <==>
            && contribId in s.contributions
            && caller != BurnPrincipal
            && s.contributions[contribId].status == Pending
            && caller !in s.contributions[contribId].approvers
            && |s.contributions[contribId].approvers| < s.maxApprovers)
      && (t.reply.ok ==>
            var c, c' := s.contributions[contribId], t.next.contributions[contribId];
            && t.next.contributions.Keys == s.contributions.Keys
            && c'.approvers == c.approvers + [caller]
            && c'.approvalCount == |c'.approvers| == c.approvalCount + 1
            && Distinct(c'.approvers)
            && c'.volunteer == c.volunteer && c'.projectId == c.projectId && c'.hours == c.hours
            && c'.evidenceHash == c.evidenceHash && c'.timestamp == c.timestamp
            && (forall j :: j in s.contributions && j != contribId ==> t.next.contributions[j] == s.contributions[j])
            && t.next.(contributions := s.contributions) == s)
  {
    var t := VerifyContribution(s, caller, contribId);
    if t.reply.ok {
      AppendKeepsDistinct(s.contributions[contribId].approvers, caller);
    }
  }

  /** The checks of an approval run in a fixed order; a failure changes nothing. */
  lemma VerifyContributionChecksInOrder(s: State, caller: Principal, contribId: int)
    ensures var t := VerifyContribution(s, caller, contribId);
      && (!t.reply.ok ==> t.next == s)
      && (contribId !in s.contributions ==> t.reply == Refused)
      && (contribId in s.contributions ==>
            var c := s.contributions[contribId];
            && (caller == BurnPrincipal ==> t.reply == Fail(ErrInvalidApprover))
            && (caller != BurnPrincipal && c.status != Pending ==> t.reply == Fail(ErrAlreadyVerified))
            && (caller != BurnPrincipal && c.status == Pending && caller in c.approvers ==>
                  t.reply == Fail(ErrInvalidApprover))
            && ((caller != BurnPrincipal && c.status == Pending && caller !in c.approvers
                 && |c.approvers| >= s.maxApprovers) ==>
                  t.reply == Fail(ErrMaxApproversExceeded)))
  {
  }

  /**
    After a successful approval the record is verified exactly when its new
    number of approvers reaches the quorum, and is still pending otherwise.
   */
  lemma QuorumDecidesStatus(s: State, caller: Principal, contribId: int)
    requires Inv(s)
    requires VerifyContribution(s, caller, contribId).reply.ok
    ensures var c' := VerifyContribution(s, caller, contribId).next.contributions[contribId];
      && (c'.status == Verified <==> |c'.approvers| >= s.minApprovals)
      && (c'.status == Pending <==> |c'.approvers| < s.minApprovals)
  {
  }

  /** A successful approval never takes a record past the current cap, and the cap holds on if it held before. */
  lemma ApprovalRespectsCap(s: State, caller: Principal, contribId: int)
    ensures var t := VerifyContribution(s, caller, contribId);
      && (t.reply.ok ==> |t.next.contributions[contribId].approvers| <= s.maxApprovers)
      && (CapRespected(s) ==> CapRespected(t.next))
  {
  }

  /** Every call that does not leave the cap lower than it found it keeps all records within the cap. */
  lemma ApplyKeepsCap(s: State, op: Op)
    requires Inv(s) && CapRespected(s)
    requires Apply(s, op).next.maxApprovers >= s.maxApprovers
    ensures CapRespected(Apply(s, op).next)
  {
    match op
    case Verify(caller, id) => ApprovalRespectsCap(s, caller, id);
    case Log(caller, height, projectId, hours, evidence) =>
      var t := LogContribution(s, caller, height, projectId, hours, evidence);
      if t.reply.ok {
        forall id | id in t.next.contributions
          ensures |t.next.contributions[id].approvers| <= t.next.maxApprovers
        {
          if id != s.nextContribId {
            assert id in s.contributions;
          }
        }
      }
    case _ =>
  }

  /** No call in the sequence leaves the cap lower than it found it; refused calls never lower it. */
  ghost predicate CapNeverLowered(s: State, ops: seq<Op>)
    decreases |ops|
  {
    ops != [] ==>
      && Apply(s, ops[0]).next.maxApprovers >= s.maxApprovers
      && CapNeverLowered(Apply(s, ops[0]).next, ops[1..])
  }

  /** If the cap is never lowered, no record ever has more approvers than the cap. */
  lemma {:induction false} RunKeepsCap(s: State, ops: seq<Op>)
    requires Inv(s) && CapRespected(s)
    requires CapNeverLowered(s, ops)
    ensures CapRespected(Run(s, ops))
    decreases |ops|
  {
    if ops != [] {
      ApplyKeepsCap(s, ops[0]);
      ApplyPreservesInv(s, ops[0]);
      RunKeepsCap(Apply(s, ops[0]).next, ops[1..]);
    }
  }

  /**
    When the quorum exceeds the cap (which `SetMaxApprovers` allows), an
    approval can never verify a record that respects the cap.
   */
  lemma QuorumAboveCapNeverVerifies(s: State, caller: Principal, contribId: int)
    requires Inv(s) && CapRespected(s)
    requires s.minApprovals > s.maxApprovers
    requires contribId in s.contributions && s.contributions[contribId].status == Pending
    ensures VerifyContribution(s, caller, contribId).next.contributions[contribId].status == Pending
  {
  }

  // ---------------------------------------------------------------------------
  // Rejecting a contribution, and terminal statuses

  /**
    A rejection succeeds exactly when the record exists, the caller is not the
    burn principal, the record is pending and an authority is bound; it then
    sets the status to rejected and changes nothing else.
   */
  lemma RejectContributionOutcome(s: State, caller: Principal, contribId: int)
    ensures var t := RejectContribution(s, caller, contribId);
      && (t.reply.ok <==>
            && contribId in s.contributions
            && caller != BurnPrincipal
            && s.contributions[contribId].status == Pending
            && HasAuthority(s))
      && (t.reply.ok ==>
            && t.next.contributions.Keys == s.contributions.Keys
            && t.next.contributions[contribId].status == Rejected
            && t.next.contributions[contribId].(status := Pending) == s.contributions[contribId]
            && (forall j :: j in s.contributions && j != contribId ==> t.next.contributions[j] == s.contributions[j])
            && t.next.(contributions := s.contributions) == s)
  {
  }

  /** The checks of a rejection run in a fixed order; a pending record is refused with 100 until an authority is bound. */
  lemma RejectContributionChecksInOrder(s: State, caller: Principal, contribId: int)
    ensures var t := RejectContribution(s, caller, contribId);
      && (!t.reply.ok ==> t.next == s)
      && (contribId !in s.contributions ==> t.reply == Refused)
      && (contribId in s.contributions ==>
            var c := s.contributions[contribId];
            && (caller == BurnPrincipal ==> t.reply == Fail(ErrInvalidApprover))
            && (caller != BurnPrincipal && c.status != Pending ==> t.reply == Fail(ErrAlreadyVerified))
            && (caller != BurnPrincipal && c.status == Pending ==>
                  (t.reply == Fail(ErrNotAuthorized) <==> !HasAuthority(s))))
  {
  }

  /**
    A decided record (verified or rejected) refuses both approval and
    rejection, with 108 for any caller but the burn principal, and stays as it is.
   */
  lemma DecidedRecordIsFinal(s: State, caller: Principal, contribId: int)
    requires contribId in s.contributions && s.contributions[contribId].status != Pending
    ensures var v, r := VerifyContribution(s, caller, contribId), RejectContribution(s, caller, contribId);
      && !v.reply.ok && v.next == s
      && !r.reply.ok && r.next == s
      && (caller != BurnPrincipal ==> v.reply == Fail(ErrAlreadyVerified) && r.reply == Fail(ErrAlreadyVerified))
  {
  }

  lemma ApplyKeepsDecidedRecord(s: State, op: Op, id: int)
    requires Inv(s)
    requires id in s.contributions && s.contributions[id].status != Pending
    ensures id in Apply(s, op).next.contributions
    ensures Apply(s, op).next.contributions[id] == s.contributions[id]
  {
    match op
    case Verify(caller, j) =>
      if j == id { DecidedRecordIsFinal(s, caller, id); }
    case Reject(caller, j) =>
      if j == id { DecidedRecordIsFinal(s, caller, id); }
    case Log(caller, height, projectId, hours, evidence) =>
      assert id < s.nextContribId;
    case _ =>
  }

  /** Verified and rejected are terminal: no sequence of calls changes a decided record. */
  lemma {:induction false} DecidedRecordsNeverChange(s: State, ops: seq<Op>, id: int)
    requires Inv(s)
    requires id in s.contributions && s.contributions[id].status != Pending
    ensures id in Run(s, ops).contributions
    ensures Run(s, ops).contributions[id] == s.contributions[id]
    decreases |ops|
  {
    if ops != [] {
      ApplyKeepsDecidedRecord(s, ops[0], id);
      ApplyPreservesInv(s, ops[0]);
      DecidedRecordsNeverChange(Apply(s, ops[0]).next, ops[1..], id);
    }
  }

  // ---------------------------------------------------------------------------
  // Authority and configuration

  /** Binding succeeds exactly when the principal is not the burn principal and nothing is bound yet. */
  lemma SetAuthorityContractOutcome(s: State, principal: Principal)
    ensures var t := SetAuthorityContract(s, principal);
      && (t.reply == Done <==> principal != BurnPrincipal && s.authorityContract.None?)
      && (t.reply == Refused <==> !t.reply.ok)
      && t.next == (if t.reply.ok then s.(authorityContract := Some(principal)) else s)
  {
  }

  /** A bound authority is never replaced by any later call. */
  lemma {:induction false} AuthorityIsBoundOnce(s: State, ops: seq<Op>)
    requires s.authorityContract.Some?
    ensures Run(s, ops).authorityContract == s.authorityContract
    decreases |ops|
  {
    if ops != [] {
      AuthorityIsBoundOnce(Apply(s, ops[0]).next, ops[1..]);
    }
  }

  /**
    Binding the empty string succeeds, yet the registry tests the binding for
    truthiness: from then on, whatever calls follow, no authority can be bound
    and both setters and every rejection are refused.
   */
  lemma EmptyAuthorityLocksGovernance(s: State, ops: seq<Op>, principal: Principal, n: int,
                                      caller: Principal, contribId: int)
    requires s.authorityContract.None?
    ensures SetAuthorityContract(s, "").reply.ok
    ensures var later := Run(SetAuthorityContract(s, "").next, ops);
      && !SetAuthorityContract(later, principal).reply.ok
      && !SetMinApprovals(later, n).reply.ok
      && !SetMaxApprovers(later, n).reply.ok
      && !RejectContribution(later, caller, contribId).reply.ok
  {
    AuthorityIsBoundOnce(SetAuthorityContract(s, "").next, ops);
  }

  /** The quorum changes exactly when an authority is bound and the new value lies in 1..maxApprovers. */
  lemma SetMinApprovalsOutcome(s: State, newMin: int)
    ensures var t := SetMinApprovals(s, newMin);
      && (t.reply == Done <==> HasAuthority(s) && 1 <= newMin <= s.maxApprovers)
      && (t.reply == Refused <==> !t.reply.ok)
      && t.next == (if t.reply.ok then s.(minApprovals := newMin) else s)
  {
  }

  /** The cap changes exactly when an authority is bound and the new value lies in 1..10. */
  lemma SetMaxApproversOutcome(s: State, newMax: int)
    ensures var t := SetMaxApprovers(s, newMax);
      && (t.reply == Done <==> HasAuthority(s) && 1 <= newMax <= ApproversCeiling)
      && (t.reply == Refused <==> !t.reply.ok)
      && t.next == (if t.reply.ok then s.(maxApprovers := newMax) else s)
  {
  }

  /** Lowering the cap is not checked against the quorum: a valid registry can end up with a quorum above its cap. */
  lemma CapCanDropBelowQuorum()
    ensures var s := Init().(authorityContract := Some("ST2APPROVER"));
      && Inv(s)
      && SetMaxApprovers(s, 1).reply.ok
      && SetMaxApprovers(s, 1).next.minApprovals > SetMaxApprovers(s, 1).next.maxApprovers
  {
  }
}
