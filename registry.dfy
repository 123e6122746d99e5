/**
  The contribution registry of VolunteerChain, as values.

  `State` holds what `ContributionTrackerMock.state` holds; every operation of
  the mock is a function from the state before the call (and the call's
  inputs, including the host-supplied caller and block height) to the reply it
  returns and the state after it. The class in tracker.dfy is proved against
  these functions, and the lemmas in properties.dfy are stated about them.
 */
module Registry {

  newtype byte = x: int | 0 <= x < 256

  /** A Stacks principal, compared as a string. */
  type Principal = string

  datatype Option<+T> = None | Some(value: T)

  /** The burn principal: refused as authority, as volunteer and as approver. */
  const BurnPrincipal: Principal := "SP000000000000000000002Q6VF78"

  const ErrNotAuthorized := 100
  const ErrInvalidVolunteer := 102
  const ErrInvalidHours := 103
  const ErrInvalidEvidenceHash := 104
  const ErrContribAlreadyExists := 105
  /** Declared by the registry but never returned: a missing record is answered with `false`. */
  const ErrContribNotFound := 106
  /** Returned for every decided record, rejected ones included. */
  const ErrAlreadyVerified := 108
  const ErrInvalidApprover := 111
  const ErrInvalidProjectId := 112
  const ErrMaxApproversExceeded := 113

  const DefaultMinApprovals := 2
  const DefaultMaxApprovers := 5
  /** The largest cap `SetMaxApprovers` accepts. */
  const ApproversCeiling := 10
  const MaxHours := 1000

  datatype Status = Pending | Verified | Rejected

  datatype Contribution = Contribution(
    volunteer: Principal,
    projectId: int,
    hours: int,
    evidenceHash: seq<byte>,
    timestamp: int,
    status: Status,
    approvers: seq<Principal>,
    approvalCount: int)

  /** The key of the uniqueness index, which the registry spells as the string `volunteer-projectId`. */
  type VolunteerKey = (Principal, int)

  /** The `value` of a reply: a flag or a number (an id or an error code). */
  datatype Value = Flag(b: bool) | Num(n: int)

  /** The `{ ok, value }` record every operation returns. */
  datatype Reply = Reply(ok: bool, value: Value)

  const Done := Reply(true, Flag(true))
  const Refused := Reply(false, Flag(false))

  function Fail(code: int): Reply {
    Reply(false, Num(code))
  }

  datatype State = State(
    nextContribId: nat,
    minApprovals: int,
    maxApprovers: int,
    authorityContract: Option<Principal>,
    contributions: map<int, Contribution>,
    contributionsByVolunteer: map<VolunteerKey, int>)

  datatype Transition = Transition(reply: Reply, next: State)

  /** The state a fresh or reset registry starts from. */
  function Init(): (s: State)
    ensures s.nextContribId == 0 && s.contributions == map[] && s.contributionsByVolunteer == map[]
    ensures s.authorityContract.None?
    ensures 1 <= s.minApprovals <= s.maxApprovers <= ApproversCeiling
  {
    State(0, DefaultMinApprovals, DefaultMaxApprovers, None, map[], map[])
  }

  /** The registry guards with `!authorityContract`: no binding and a bound empty string are both falsy. */
  predicate HasAuthority(s: State): (r: bool)
    ensures r ==> s.authorityContract.Some?
    ensures s.authorityContract == Some("") ==> !r
  {
    s.authorityContract.Some? && s.authorityContract.value != ""
  }

  function SetAuthorityContract(s: State, principal: Principal): (t: Transition)
    ensures !t.reply.ok ==> t.next == s
    ensures t.next.contributions == s.contributions
  {
    if principal == BurnPrincipal then Transition(Refused, s)
    else if s.authorityContract.Some? then Transition(Refused, s)
    else Transition(Done, s.(authorityContract := Some(principal)))
  }

  function SetMinApprovals(s: State, newMin: int): (t: Transition)
    ensures !t.reply.ok ==> t.next == s
    ensures t.next.contributions == s.contributions
  {
    if !HasAuthority(s) || newMin <= 0 || newMin > s.maxApprovers then Transition(Refused, s)
    else Transition(Done, s.(minApprovals := newMin))
  }

  function SetMaxApprovers(s: State, newMax: int): (t: Transition)
    ensures !t.reply.ok ==> t.next == s
    ensures t.next.contributions == s.contributions
  {
    if !HasAuthority(s) || newMax <= 0 || newMax > ApproversCeiling then Transition(Refused, s)
    else Transition(Done, s.(maxApprovers := newMax))
  }

  function LogContribution(s: State, caller: Principal, blockHeight: int, projectId: int,
                           hours: int, evidenceHash: seq<byte>): (t: Transition)
    ensures !t.reply.ok ==> t.next == s
    ensures t.next.authorityContract == s.authorityContract
  {
    if projectId <= 0 then Transition(Fail(ErrInvalidProjectId), s)
    else if caller == BurnPrincipal then Transition(Fail(ErrInvalidVolunteer), s)
    else if hours <= 0 || hours > MaxHours then Transition(Fail(ErrInvalidHours), s)
    else if |evidenceHash| == 0 then Transition(Fail(ErrInvalidEvidenceHash), s)
    else if (caller, projectId) in s.contributionsByVolunteer then Transition(Fail(ErrContribAlreadyExists), s)
    else
      var id := s.nextContribId;
      var record := Contribution(caller, projectId, hours, evidenceHash, blockHeight, Pending, [], 0);
      Transition(Reply(true, Num(id)),
                 s.(contributions := s.contributions[id := record],
                    contributionsByVolunteer := s.contributionsByVolunteer[(caller, projectId) := id],
                    nextContribId := s.nextContribId + 1))
  }

  function VerifyContribution(s: State, caller: Principal, contribId: int): (t: Transition)
    ensures !t.reply.ok ==> t.next == s
    ensures t.next.authorityContract == s.authorityContract
  {
    if contribId !in s.contributions then Transition(Refused, s)
    else
      var c := s.contributions[contribId];
      if caller == BurnPrincipal then Transition(Fail(ErrInvalidApprover), s)
      else if c.status != Pending then Transition(Fail(ErrAlreadyVerified), s)
      else if caller in c.approvers then Transition(Fail(ErrInvalidApprover), s)
      else if |c.approvers| >= s.maxApprovers then Transition(Fail(ErrMaxApproversExceeded), s)
      else
        var newCount := c.approvalCount + 1;
        var newStatus := if newCount >= s.minApprovals then Verified else Pending;
        var updated := c.(approvers := c.approvers + [caller], approvalCount := newCount, status := newStatus);
        Transition(Done, s.(contributions := s.contributions[contribId := updated]))
  }

  function RejectContribution(s: State, caller: Principal, contribId: int): (t: Transition)
    ensures !t.reply.ok ==> t.next == s
    ensures t.next.authorityContract == s.authorityContract
  {
    if contribId !in s.contributions then Transition(Refused, s)
    else
      var c := s.contributions[contribId];
      if caller == BurnPrincipal then Transition(Fail(ErrInvalidApprover), s)
      else if c.status != Pending then Transition(Fail(ErrAlreadyVerified), s)
      else if !HasAuthority(s) then Transition(Fail(ErrNotAuthorized), s)
      else Transition(Done, s.(contributions := s.contributions[contribId := c.(status := Rejected)]))
  }

  /** A record is an object, hence truthy: `|| null` turns only a missing id into null. */
  function GetContribution(s: State, id: int): (r: Option<Contribution>)
    ensures r.Some? <==> id in s.contributions
    ensures r.Some? ==> r.value == s.contributions[id]
  {
    if id in s.contributions then Some(s.contributions[id]) else None
  }

  /**
    The pair a lookup's string key `volunteer-projectId` stands for. Stored
    keys only hold positive project ids, so for a negative id the string
    `v--n` can only be the key of the pair (`v-`, n).
   */
  function LookupKey(volunteer: Principal, projectId: int): VolunteerKey {
    if projectId < 0 then (volunteer + "-", -projectId) else (volunteer, projectId)
  }

  /** `|| null` also turns a stored id of 0, which is falsy, into null. */
  function GetContributionByVolunteer(s: State, volunteer: Principal, projectId: int): (r: Option<int>)
    ensures var key := LookupKey(volunteer, projectId);
      && (r.Some? <==> key in s.contributionsByVolunteer && s.contributionsByVolunteer[key] != 0)
      && (r.Some? ==> r.value == s.contributionsByVolunteer[key])
  {
    var key := LookupKey(volunteer, projectId);
    if key in s.contributionsByVolunteer && s.contributionsByVolunteer[key] != 0
    then Some(s.contributionsByVolunteer[key])
    else None
  }

  /** One call of a state-changing operation, with the caller and block height the host supplies. */
  datatype Op =
    | BindAuthority(principal: Principal)
    | SetMin(newMin: int)
    | SetMax(newMax: int)
    | Log(caller: Principal, blockHeight: int, projectId: int, hours: int, evidenceHash: seq<byte>)
    | Verify(approver: Principal, contribId: int)
    | Reject(rejecter: Principal, contribId: int)

  function Apply(s: State, op: Op): (t: Transition)
    ensures !t.reply.ok ==> t.next == s
  {
    match op
    case BindAuthority(p) => SetAuthorityContract(s, p)
    case SetMin(n) => SetMinApprovals(s, n)
    case SetMax(n) => SetMaxApprovers(s, n)
    case Log(caller, height, projectId, hours, evidence) =>
      LogContribution(s, caller, height, projectId, hours, evidence)
    case Verify(caller, id) => VerifyContribution(s, caller, id)
    case Reject(caller, id) => RejectContribution(s, caller, id)
  }

  /** The state after a sequence of calls, one at a time, each fully applied or not at all. */
  function Run(s: State, ops: seq<Op>): State
    decreases |ops|
  {
    if ops == [] then s else Run(Apply(s, ops[0]).next, ops[1..])
  }
}
