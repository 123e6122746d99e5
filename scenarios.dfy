/**
  The registry's test cases, replayed against the class. Each method builds a
  fresh registry, makes the calls its test makes (the test's assignments to
  the caller become the caller argument), and promises in its postcondition
  what the test expects. They are proved from the class's contracts alone.
 */
module Scenarios {
  import opened Registry
  import opened Tracker

  const Volunteer: Principal := "ST1VOLUNTEER"
  const Approver: Principal := "ST2APPROVER"
  const SecondApprover: Principal := "ST3APPROVER"
  const ThirdApprover: Principal := "ST4APPROVER"

  /** The 32-byte evidence hash, every byte 1, that the tests submit. */
  function Evidence(): (e: seq<byte>)
    ensures |e| == 32
  {
    seq(32, _ => 1)
  }

  method LogsContributionSuccessfully() returns (result: Reply, contrib: Option<Contribution>)
    ensures result == Reply(true, Num(0))
    ensures contrib.Some?
    ensures contrib.value.volunteer == Volunteer && contrib.value.projectId == 1 && contrib.value.hours == 10
    ensures contrib.value.status == Pending && contrib.value.approvalCount == 0
  {
    var tracker := new ContributionTracker();
    var _ := tracker.SetAuthorityContract(Approver);
    result := tracker.LogContribution(Volunteer, 0, 1, 10, Evidence());
    contrib := tracker.GetContribution(0);
  }

  method RejectsDuplicateContribution() returns (result: Reply)
    ensures result == Fail(ErrContribAlreadyExists)
  {
    var tracker := new ContributionTracker();
    var _ := tracker.SetAuthorityContract(Approver);
    var _ := tracker.LogContribution(Volunteer, 0, 1, 10, Evidence());
    result := tracker.LogContribution(Volunteer, 0, 1, 20, Evidence());
  }

  method RejectsInvalidInputs() returns (badProject: Reply, badHours: Reply, badEvidence: Reply)
    ensures badProject == Fail(ErrInvalidProjectId)
    ensures badHours == Fail(ErrInvalidHours)
    ensures badEvidence == Fail(ErrInvalidEvidenceHash)
  {
    var tracker := new ContributionTracker();
    var _ := tracker.SetAuthorityContract(Approver);
    badProject := tracker.LogContribution(Volunteer, 0, 0, 10, Evidence());
    badHours := tracker.LogContribution(Volunteer, 0, 1, 0, Evidence());
    badEvidence := tracker.LogContribution(Volunteer, 0, 1, 10, []);
  }

  /** With the default quorum of 2 the first approval leaves the record pending and the second verifies it. */
  method VerifiesContributionSuccessfully()
    returns (first: Reply, afterFirst: Option<Contribution>, afterSecond: Option<Contribution>)
    ensures first == Done
    ensures afterFirst.Some? && afterFirst.value.approvers == [Approver]
    ensures afterFirst.value.approvalCount == 1 && afterFirst.value.status == Pending
    ensures afterSecond.Some? && afterSecond.value.approvalCount == 2 && afterSecond.value.status == Verified
  {
    var tracker := new ContributionTracker();
    var _ := tracker.SetAuthorityContract(Approver);
    var _ := tracker.LogContribution(Volunteer, 0, 1, 10, Evidence());
    first := tracker.VerifyContribution(Approver, 0);
    afterFirst := tracker.GetContribution(0);
    var _ := tracker.VerifyContribution(SecondApprover, 0);
    afterSecond := tracker.GetContribution(0);
  }

  method RejectsVerificationOfMissingContribution() returns (result: Reply)
    ensures result == Reply(false, Flag(false))
  {
    var tracker := new ContributionTracker();
    var _ := tracker.SetAuthorityContract(Approver);
    result := tracker.VerifyContribution(Approver, 99);
  }

  method RejectsVerificationBySameApprover() returns (result: Reply)
    ensures result == Fail(ErrInvalidApprover)
  {
    var tracker := new ContributionTracker();
    var _ := tracker.SetAuthorityContract(Approver);
    var _ := tracker.LogContribution(Volunteer, 0, 1, 10, Evidence());
    var _ := tracker.VerifyContribution(Approver, 0);
    result := tracker.VerifyContribution(Approver, 0);
  }

  method RejectsVerificationOfVerifiedContribution() returns (result: Reply)
    ensures result == Fail(ErrAlreadyVerified)
  {
    var tracker := new ContributionTracker();
    var _ := tracker.SetAuthorityContract(Approver);
    var _ := tracker.LogContribution(Volunteer, 0, 1, 10, Evidence());
    var _ := tracker.VerifyContribution(Approver, 0);
    var _ := tracker.VerifyContribution(SecondApprover, 0);
    result := tracker.VerifyContribution(ThirdApprover, 0);
  }

  /** With the cap at 1 the second approver is refused, even though the quorum of 2 is not met. */
  method RejectsVerificationBeyondCap() returns (first: Reply, result: Reply)
    ensures first == Done
    ensures result == Fail(ErrMaxApproversExceeded)
  {
    var tracker := new ContributionTracker.Configured(1);
    var _ := tracker.SetAuthorityContract(Approver);
    var _ := tracker.LogContribution(Volunteer, 0, 1, 10, Evidence());
    first := tracker.VerifyContribution(Approver, 0);
    result := tracker.VerifyContribution(SecondApprover, 0);
  }

  method RejectsBurnPrincipal() returns (asVolunteer: Reply, asApprover: Reply)
    ensures asVolunteer == Fail(ErrInvalidVolunteer)
    ensures asApprover == Fail(ErrInvalidApprover)
  {
    var tracker := new ContributionTracker();
    var _ := tracker.SetAuthorityContract(Approver);
    asVolunteer := tracker.LogContribution(BurnPrincipal, 0, 1, 10, Evidence());
    var _ := tracker.LogContribution(Volunteer, 0, 1, 10, Evidence());
    asApprover := tracker.VerifyContribution(BurnPrincipal, 0);
  }

  /** Logging needs no bound authority. */
  method LogsWithoutAuthority() returns (result: Reply)
    ensures result == Reply(true, Num(0))
  {
    var tracker := new ContributionTracker();
    result := tracker.LogContribution(Volunteer, 0, 1, 10, Evidence());
  }

  method ConfiguresApprovals()
    returns (setMin: Reply, minApprovals: int, badMin: Reply, setMax: Reply, maxApprovers: int, badMax: Reply)
    ensures setMin == Done && minApprovals == 3
    ensures badMin == Refused
    ensures setMax == Done && maxApprovers == 7
    ensures badMax == Refused
  {
    var tracker := new ContributionTracker();
    var _ := tracker.SetAuthorityContract(Approver);
    setMin := tracker.SetMinApprovals(3);
    minApprovals := tracker.minApprovals;
    badMin := tracker.SetMinApprovals(6);
    setMax := tracker.SetMaxApprovers(7);
    maxApprovers := tracker.maxApprovers;
    badMax := tracker.SetMaxApprovers(11);
  }

  /** A pending record cannot be rejected before an authority is bound, and can be afterwards. */
  method RejectsOnlyWithAuthority() returns (unbound: Reply, bound: Reply, contrib: Option<Contribution>)
    ensures unbound == Fail(ErrNotAuthorized)
    ensures bound == Done
    ensures contrib.Some? && contrib.value.status == Rejected
  {
    var tracker := new ContributionTracker();
    var _ := tracker.LogContribution(Volunteer, 0, 1, 10, Evidence());
    unbound := tracker.RejectContribution(Approver, 0);
    var _ := tracker.SetAuthorityContract(Approver);
    bound := tracker.RejectContribution(Approver, 0);
    contrib := tracker.GetContribution(0);
  }

  /** The first record gets id 0, which the lookup by volunteer reports as absent. */
  method FirstRecordHiddenFromVolunteerLookup() returns (logged: Reply, found: Option<int>)
    ensures logged == Reply(true, Num(0))
    ensures found == None
  {
    var tracker := new ContributionTracker();
    logged := tracker.LogContribution(Volunteer, 0, 1, 10, Evidence());
    found := tracker.GetContributionByVolunteer(Volunteer, 1);
  }

  /**
    The lookup string for ("A", -1) is `A--1`, which is also the key of the
    pair ("A-", 1): the lookup finds that pair's record.
   */
  method NegativeProjectLookupFindsOtherPair() returns (found: Option<int>)
    ensures found == Some(1)
  {
    var tracker := new ContributionTracker();
    var _ := tracker.LogContribution("X", 0, 1, 10, Evidence());
    var _ := tracker.LogContribution("A-", 0, 1, 10, Evidence());
    assert "A" + "-" == "A-" by {
      assert ("A" + "-")[0] == 'A' && ("A" + "-")[1] == '-';
    }
    found := tracker.GetContributionByVolunteer("A", -1);
  }
}
