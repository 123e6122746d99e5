/**
  The invariant every reachable registry state keeps, and its preservation by
  each operation.
 */
module RegistryInvariants {
  import opened Registry

  /** No principal appears twice. */
  ghost predicate Distinct(xs: seq<Principal>) {
    forall i, j :: 0 <= i < j < |xs| ==> xs[i] != xs[j]
  }

  /** What holds of every stored record, whatever its status. */
  ghost predicate RecordValid(c: Contribution) {
    && c.volunteer != BurnPrincipal
    && c.projectId > 0
    && 1 <= c.hours <= MaxHours
    && |c.evidenceHash| > 0
    && c.approvalCount == |c.approvers|
    && Distinct(c.approvers)
    && BurnPrincipal !in c.approvers
    && |c.approvers| <= ApproversCeiling
    && (c.status == Verified ==> c.approvalCount >= 1)
  }

  function KeyOf(c: Contribution): VolunteerKey {
    (c.volunteer, c.projectId)
  }

  /**
    The registry invariant. Ids are below the counter; each record is valid and
    indexed under its own (volunteer, project) key; each index entry points at
    a record with that key. There is no `minApprovals <= maxApprovers` here:
    `SetMaxApprovers` does not re-check it.
   */
  ghost predicate Inv(s: State) {
    && 1 <= s.minApprovals <= ApproversCeiling
    && 1 <= s.maxApprovers <= ApproversCeiling
    && (forall id :: id in s.contributions ==>
          && 0 <= id < s.nextContribId
          && RecordValid(s.contributions[id])
          && KeyOf(s.contributions[id]) in s.contributionsByVolunteer
          && s.contributionsByVolunteer[KeyOf(s.contributions[id])] == id)
    && (forall k :: k in s.contributionsByVolunteer ==>
          && s.contributionsByVolunteer[k] in s.contributions
          && KeyOf(s.contributions[s.contributionsByVolunteer[k]]) == k)
  }

  /** Every stored record has at most as many approvers as the current cap. */
  ghost predicate CapRespected(s: State) {
    forall id :: id in s.contributions ==> |s.contributions[id].approvers| <= s.maxApprovers
  }

  lemma InitSatisfiesInv(maxApprovers: int)
    requires 1 <= maxApprovers <= ApproversCeiling
    ensures Inv(Init()) && CapRespected(Init())
    ensures Inv(Init().(maxApprovers := maxApprovers)) && CapRespected(Init().(maxApprovers := maxApprovers))
  {
  }

  lemma AppendKeepsDistinct(xs: seq<Principal>, x: Principal)
    requires Distinct(xs) && x !in xs
    ensures Distinct(xs + [x])
  {
    var ys := xs + [x];
    forall i, j | 0 <= i < j < |ys| ensures ys[i] != ys[j] {
      if j == |xs| {
        assert ys[i] == xs[i];
      }
    }
  }

  lemma LogPreservesInv(s: State, caller: Principal, blockHeight: int, projectId: int,
                        hours: int, evidenceHash: seq<byte>)
    requires Inv(s)
    ensures Inv(LogContribution(s, caller, blockHeight, projectId, hours, evidenceHash).next)
  {
    var t := LogContribution(s, caller, blockHeight, projectId, hours, evidenceHash);
    if t.reply.ok {
      var s' := t.next;
      var id := s.nextContribId;
      assert id !in s.contributions;
      forall k | k in s'.contributionsByVolunteer
        ensures s'.contributionsByVolunteer[k] in s'.contributions
        ensures KeyOf(s'.contributions[s'.contributionsByVolunteer[k]]) == k
      {
        if k != (caller, projectId) {
          assert s'.contributionsByVolunteer[k] == s.contributionsByVolunteer[k];
        }
      }
    }
  }

  lemma VerifyPreservesInv(s: State, caller: Principal, contribId: int)
    requires Inv(s)
    ensures Inv(VerifyContribution(s, caller, contribId).next)
  {
    var t := VerifyContribution(s, caller, contribId);
    if t.reply.ok {
      var c := s.contributions[contribId];
      AppendKeepsDistinct(c.approvers, caller);
      var s' := t.next;
      assert RecordValid(s'.contributions[contribId]);
      forall k | k in s'.contributionsByVolunteer
        ensures s'.contributionsByVolunteer[k] in s'.contributions
        ensures KeyOf(s'.contributions[s'.contributionsByVolunteer[k]]) == k
      {
        assert s'.contributionsByVolunteer[k] in s.contributions;
      }
    }
  }

  lemma RejectPreservesInv(s: State, caller: Principal, contribId: int)
    requires Inv(s)
    ensures Inv(RejectContribution(s, caller, contribId).next)
  {
    var t := RejectContribution(s, caller, contribId);
    if t.reply.ok {
      var s' := t.next;
      forall k | k in s'.contributionsByVolunteer
        ensures s'.contributionsByVolunteer[k] in s'.contributions
        ensures KeyOf(s'.contributions[s'.contributionsByVolunteer[k]]) == k
      {
        assert s'.contributionsByVolunteer[k] in s.contributions;
      }
    }
  }

  lemma ApplyPreservesInv(s: State, op: Op)
    requires Inv(s)
    ensures Inv(Apply(s, op).next)
  {
    match op
    case BindAuthority(p) =>
    case SetMin(n) =>
    case SetMax(n) =>
    case Log(caller, height, projectId, hours, evidence) =>
      LogPreservesInv(s, caller, height, projectId, hours, evidence);
    case Verify(caller, id) => VerifyPreservesInv(s, caller, id);
    case Reject(caller, id) => RejectPreservesInv(s, caller, id);
  }

  /** Every state reached from a valid one by any sequence of calls is valid. */
  lemma {:induction false} RunPreservesInv(s: State, ops: seq<Op>)
    requires Inv(s)
    ensures Inv(Run(s, ops))
    decreases |ops|
  {
    if ops != [] {
      ApplyPreservesInv(s, ops[0]);
      RunPreservesInv(Apply(s, ops[0]).next, ops[1..]);
    }
  }
}
