/**
  The registry object itself: `ContributionTrackerMock`, whose operations run
  a chain of guards and then write its fields in place. The caller and the
  block height, which the host sets on the object before each call, are
  parameters of the calls that read them.

  Each operation is proved against the transition function of the same name
  in module Registry: it answers with that function's reply and leaves the
  fields holding that function's next state. The object invariant `Valid()`
  is the registry invariant `Inv` of the fields.
 */
module Tracker {
  import opened Registry
  import opened RegistryInvariants
  import opened RegistryProperties
  import opened KeyStrings

  class ContributionTracker {
    var nextContribId: nat
    var minApprovals: int
    var maxApprovers: int
    var authorityContract: Option<Principal>
    var contributions: map<int, Contribution>
    var contributionsByVolunteer: map<VolunteerKey, int>

    /** The fields, as a registry state. */
    ghost function Snapshot(): State
      reads this
    {
      State(nextContribId, minApprovals, maxApprovers, authorityContract, contributions, contributionsByVolunteer)
    }

    ghost predicate Valid()
      reads this
    {
      Inv(Snapshot())
    }

    /** A fresh registry with the default configuration. */
    constructor ()
      ensures Valid() && Snapshot() == Init()
    {
      nextContribId := 0;
      minApprovals := DefaultMinApprovals;
      maxApprovers := DefaultMaxApprovers;
      authorityContract := None;
      contributions := map[];
      contributionsByVolunteer := map[];
      InitSatisfiesInv(DefaultMaxApprovers);
    }

    /** A fresh registry whose cap is configured up front instead of the default 5. */
    constructor Configured(maxApprovers: int)
      requires 1 <= maxApprovers <= ApproversCeiling
      ensures Valid() && Snapshot() == Init().(maxApprovers := maxApprovers)
    {
      nextContribId := 0;
      minApprovals := DefaultMinApprovals;
      this.maxApprovers := maxApprovers;
      authorityContract := None;
      contributions := map[];
      contributionsByVolunteer := map[];
      InitSatisfiesInv(maxApprovers);
    }

    /** Back to the default configuration, with no records and no authority. */
    method Reset()
      modifies this
      ensures Valid() && Snapshot() == Init()
    {
      nextContribId := 0;
      minApprovals := DefaultMinApprovals;
      maxApprovers := DefaultMaxApprovers;
      authorityContract := None;
      contributions := map[];
      contributionsByVolunteer := map[];
      InitSatisfiesInv(DefaultMaxApprovers);
    }

    method SetAuthorityContract(principal: Principal) returns (r: Reply)
      requires Valid()
      modifies this
      ensures Valid()
      ensures var t := Registry.SetAuthorityContract(old(Snapshot()), principal);
        r == t.reply && Snapshot() == t.next
    {
      if principal == BurnPrincipal {
        return Refused;
      }
      if authorityContract.Some? {
        return Refused;
      }
      authorityContract := Some(principal);
      r := Done;
    }

    method SetMinApprovals(newMin: int) returns (r: Reply)
      requires Valid()
      modifies this
      ensures Valid()
      ensures var t := Registry.SetMinApprovals(old(Snapshot()), newMin);
        r == t.reply && Snapshot() == t.next
    {
      if authorityContract.None? || authorityContract.value == "" || newMin <= 0 || newMin > maxApprovers {
        return Refused;
      }
      minApprovals := newMin;
      r := Done;
    }

    method SetMaxApprovers(newMax: int) returns (r: Reply)
      requires Valid()
      modifies this
      ensures Valid()
      ensures var t := Registry.SetMaxApprovers(old(Snapshot()), newMax);
        r == t.reply && Snapshot() == t.next
    {
      if authorityContract.None? || authorityContract.value == "" || newMax <= 0 || newMax > ApproversCeiling {
        return Refused;
      }
      maxApprovers := newMax;
      r := Done;
    }

    method LogContribution(caller: Principal, blockHeight: int, projectId: int, hours: int,
                           evidenceHash: seq<byte>) returns (r: Reply)
      requires Valid()
      modifies this
      ensures Valid()
      ensures var t := Registry.LogContribution(old(Snapshot()), caller, blockHeight, projectId, hours, evidenceHash);
        r == t.reply && Snapshot() == t.next
    {
      if projectId <= 0 {
        return Fail(ErrInvalidProjectId);
      }
      if caller == BurnPrincipal {
        return Fail(ErrInvalidVolunteer);
      }
      if hours <= 0 || hours > MaxHours {
        return Fail(ErrInvalidHours);
      }
      if |evidenceHash| == 0 {
        return Fail(ErrInvalidEvidenceHash);
      }
      var key := (caller, projectId);
      if key in contributionsByVolunteer {
        return Fail(ErrContribAlreadyExists);
      }
      ghost var before := Snapshot();
      var id := nextContribId;
      contributions := contributions[id := Contribution(caller, projectId, hours, evidenceHash, blockHeight, Pending, [], 0)];
      contributionsByVolunteer := contributionsByVolunteer[key := id];
      nextContribId := nextContribId + 1;
      r := Reply(true, Num(id));
      LogPreservesInv(before, caller, blockHeight, projectId, hours, evidenceHash);
    }

    method VerifyContribution(caller: Principal, contribId: int) returns (r: Reply)
      requires Valid()
      modifies this
      ensures Valid()
      ensures var t := Registry.VerifyContribution(old(Snapshot()), caller, contribId);
        r == t.reply && Snapshot() == t.next
    {
      if contribId !in contributions {
        return Refused;
      }
      var contrib := contributions[contribId];
      if caller == BurnPrincipal {
        return Fail(ErrInvalidApprover);
      }
      if contrib.status != Pending {
        return Fail(ErrAlreadyVerified);
      }
      if caller in contrib.approvers {
        return Fail(ErrInvalidApprover);
      }
      if |contrib.approvers| >= maxApprovers {
        return Fail(ErrMaxApproversExceeded);
      }
      ghost var before := Snapshot();
      var newApprovers := contrib.approvers + [caller];
      var newCount := contrib.approvalCount + 1;
      var newStatus := if newCount >= minApprovals then Verified else Pending;
      contributions := contributions[contribId := contrib.(approvers := newApprovers, approvalCount := newCount,
                                                           status := newStatus)];
      r := Done;
      VerifyPreservesInv(before, caller, contribId);
    }

    method RejectContribution(caller: Principal, contribId: int) returns (r: Reply)
      requires Valid()
      modifies this
      ensures Valid()
      ensures var t := Registry.RejectContribution(old(Snapshot()), caller, contribId);
        r == t.reply && Snapshot() == t.next
    {
      if contribId !in contributions {
        return Refused;
      }
      var contrib := contributions[contribId];
      if caller == BurnPrincipal {
        return Fail(ErrInvalidApprover);
      }
      if contrib.status != Pending {
        return Fail(ErrAlreadyVerified);
      }
      if authorityContract.None? || authorityContract.value == "" {
        return Fail(ErrNotAuthorized);
      }
      ghost var before := Snapshot();
      contributions := contributions[contribId := contrib.(status := Rejected)];
      r := Done;
      RejectPreservesInv(before, caller, contribId);
    }

    /** The record stored under `id`, if any. */
    method GetContribution(id: int) returns (r: Option<Contribution>)
      ensures r == Registry.GetContribution(Snapshot(), id)
    {
      if id in contributions {
        r := Some(contributions[id]);
      } else {
        r := None;
      }
    }

    /**
      The id indexed under the string key `volunteer-projectId`, if any; a
      stored id of 0 is falsy and is reported as absent.
     */
    method GetContributionByVolunteer(volunteer: Principal, projectId: int) returns (r: Option<int>)
      requires Valid()
      ensures r == Registry.GetContributionByVolunteer(Snapshot(), volunteer, projectId)
      ensures r.Some? ==> r.value != 0 && r.value in contributions
                          && RecordKeyString(contributions[r.value]) == KeyString(volunteer, projectId)
      ensures r.None? ==> forall id :: (id in contributions && RecordKeyString(contributions[id])
                                        == KeyString(volunteer, projectId)) ==> id == 0
    {
      var key := LookupKey(volunteer, projectId);
      if key in contributionsByVolunteer && contributionsByVolunteer[key] != 0 {
        r := Some(contributionsByVolunteer[key]);
      } else {
        r := None;
      }
      LookupByVolunteerAgreesWithRecords(Snapshot(), volunteer, projectId);
    }
  }
}
