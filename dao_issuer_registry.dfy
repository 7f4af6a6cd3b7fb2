/** The extended issuer registry: the plain registry's workflow plus
    token-gated voting. An account holding the governance asset may vote once
    for a registered, not-yet-approved issuer; a box keyed by voter bytes
    followed by issuer bytes records the vote, and the issuer's local
    `vote_count` counts them. `approve_issuer` is open to the admin and, once
    an issuer has enough votes, to any sender (the DAO path).

    Global state: `admin`, `approved_count`. Local state: `is_registered`,
    `is_approved`, `vote_count`. Box storage: one box per (voter, issuer). */
module DaoIssuerRegistry {
  import opened Avm
  import IssuerRegistry

  /** Asset id of the governance token (CXG) a voter must hold. */
  const GOVERNANCE_ASSET_ID: UInt64 := 1008

  /** Votes that let any sender approve an issuer. The rejection message
      speaks of five; the code compares with one. */
  const DAO_VOTE_THRESHOLD: UInt64 := 1

  /** Contents written into a vote box: the single byte "1". */
  const VOTE_MARKER: Bytes := [0x31]

  datatype Error =
    | AlreadyOptedIn
    | AlreadyRegistered      // "Already registered"
    | NoGovernanceToken      // "Must hold Governance Token (CXG)"
    | IssuerNotRegistered    // "Issuer not registered"
    | IssuerAlreadyApproved  // "Issuer already approved"
    | AlreadyVoted           // "Already voted for this issuer"
    | NotAuthorized          // "Not authorized (Admin or 5+ votes required)"
    | NotRegistered          // "Account not registered"
    | AlreadyApproved        // "Account already approved"
    | OnlyAdminRevoke        // "Only admin can revoke"
    | NotApproved            // "Account not approved"
    | NotOptedIn
    | Overflow
    | Underflow

  datatype State = State(
    admin: Bytes,
    approvedCount: UInt64,
    optedIn: set<Address>,
    isRegistered: map<Address, UInt64>,
    isApproved: map<Address, UInt64>,
    voteCount: map<Address, UInt64>,
    boxes: map<Bytes, Bytes>)

  /** The box key `Txn.sender.bytes + issuer.bytes`. */
  function BoxKey(voter: Address, issuer: Address): (k: Bytes)
    ensures |k| == 2 * ADDRESS_LENGTH
    ensures k[..ADDRESS_LENGTH] == voter && k[ADDRESS_LENGTH..] == issuer
  {
    voter + issuer
  }

  /** The boxes that record a vote for `issuer`: keys of two addresses' length
      whose second half is `issuer`. */
  function VoteBoxes(boxes: map<Bytes, Bytes>, issuer: Address): set<Bytes>
  {
    set k | k in boxes && |k| == 2 * ADDRESS_LENGTH && k[ADDRESS_LENGTH..] == issuer
  }

  ghost predicate Inv(s: State)
  {
    && s.approvedCount == |IssuerRegistry.ApprovedSet(s.isApproved)|
    && (forall a | a in s.isApproved && s.isApproved[a] == 1 ::
          LocalGet(s.isRegistered, a) == 1)
    && (forall i :: LocalGet(s.voteCount, i) == |VoteBoxes(s.boxes, i)|)
    && (forall i | LocalGet(s.isRegistered, i) == 0 :: VoteBoxes(s.boxes, i) == {})
    && s.isRegistered.Keys <= s.optedIn
    && s.isApproved.Keys <= s.optedIn
    && s.voteCount.Keys <= s.optedIn
  }

  /** `create`: the sender becomes admin; nothing is registered, approved or
      voted for. */
  function Create(sender: Address): (s: State)
    ensures s.admin == sender && s.approvedCount == 0 && s.boxes == map[]
    ensures Inv(s)
  {
    State(sender, 0, {}, map[], map[], map[], map[])
  }

  function OpenLocalState(s: State, sender: Address): (r: Result<State, Error>)
    ensures r.Ok? <==> sender !in s.optedIn
    ensures r.Ok? ==> r.value == s.(optedIn := s.optedIn + {sender})
  {
    if sender in s.optedIn then Err(AlreadyOptedIn)
    else Ok(s.(optedIn := s.optedIn + {sender}))
  }

  /** `register_issuer`: registers the sender once and starts its vote count
      at 0. */
  function Register(s: State, sender: Address): (r: Result<State, Error>)
    ensures LocalGet(s.isRegistered, sender) != 0 ==> r == Err(AlreadyRegistered)
    ensures r.Ok? <==> LocalGet(s.isRegistered, sender) == 0 && sender in s.optedIn
    ensures r.Ok? ==>
      && LocalGet(r.value.isRegistered, sender) == 1
      && sender in r.value.voteCount && r.value.voteCount[sender] == 0
      && (forall a | a != sender ::
            LocalGet(r.value.isRegistered, a) == LocalGet(s.isRegistered, a)
            && LocalGet(r.value.voteCount, a) == LocalGet(s.voteCount, a))
      && r.value.(isRegistered := s.isRegistered, voteCount := s.voteCount) == s
  {
    if LocalGet(s.isRegistered, sender) != 0 then Err(AlreadyRegistered)
    else if sender !in s.optedIn then Err(NotOptedIn)
    else Ok(s.(isRegistered := s.isRegistered[sender := 1], voteCount := s.voteCount[sender := 0]))
  }

  /** `vote(issuer)`. `holdings` are the sender's asset holdings on the
      ledger, by asset id (an absent id: the sender has not opted in to it). */
  function CastVote(s: State, sender: Address, holdings: map<UInt64, UInt64>, issuer: Address): (r: Result<State, Error>)
    ensures !(GOVERNANCE_ASSET_ID in holdings && holdings[GOVERNANCE_ASSET_ID] > 0) ==> r == Err(NoGovernanceToken)
    ensures r.Ok? <==>
      && GOVERNANCE_ASSET_ID in holdings && holdings[GOVERNANCE_ASSET_ID] > 0
      && LocalGet(s.isRegistered, issuer) == 1
      && LocalGet(s.isApproved, issuer) == 0
      && BoxKey(sender, issuer) !in s.boxes
      && LocalGet(s.voteCount, issuer) < MAX_UINT64
      && issuer in s.optedIn
    ensures r.Ok? ==>
      && r.value.boxes == s.boxes[BoxKey(sender, issuer) := VOTE_MARKER]
      && LocalGet(r.value.voteCount, issuer) == LocalGet(s.voteCount, issuer) + 1
      && (forall a | a != issuer :: LocalGet(r.value.voteCount, a) == LocalGet(s.voteCount, a))
      && r.value.(voteCount := s.voteCount, boxes := s.boxes) == s
  {
    if !(GOVERNANCE_ASSET_ID in holdings && holdings[GOVERNANCE_ASSET_ID] > 0) then Err(NoGovernanceToken)
    else if LocalGet(s.isRegistered, issuer) != 1 then Err(IssuerNotRegistered)
    else if LocalGet(s.isApproved, issuer) != 0 then Err(IssuerAlreadyApproved)
    else if BoxKey(sender, issuer) in s.boxes then Err(AlreadyVoted)
    else if LocalGet(s.voteCount, issuer) == MAX_UINT64 then Err(Overflow)
    else if issuer !in s.optedIn then Err(NotOptedIn)
    else Ok(s.(boxes := s.boxes[BoxKey(sender, issuer) := VOTE_MARKER],
               voteCount := s.voteCount[issuer := LocalGet(s.voteCount, issuer) + 1]))
  }

  /** `approve_issuer(account)`: the admin, or anyone once the account has
      `DAO_VOTE_THRESHOLD` votes, approves a registered, unapproved account. */
  function Approve(s: State, sender: Address, account: Address): (r: Result<State, Error>)
    ensures r.Ok? <==>
      && (sender == s.admin || LocalGet(s.voteCount, account) >= DAO_VOTE_THRESHOLD)
      && LocalGet(s.isRegistered, account) == 1
      && LocalGet(s.isApproved, account) == 0
      && account in s.optedIn
      && s.approvedCount < MAX_UINT64
    ensures r.Ok? ==>
      && LocalGet(r.value.isApproved, account) == 1
      && r.value.approvedCount == s.approvedCount + 1
      && (forall a | a != account :: LocalGet(r.value.isApproved, a) == LocalGet(s.isApproved, a))
      && r.value.(isApproved := s.isApproved, approvedCount := s.approvedCount) == s
  {
    var isAdmin := sender == s.admin;
    var isDao := LocalGet(s.voteCount, account) >= DAO_VOTE_THRESHOLD;
    if !(isAdmin || isDao) then Err(NotAuthorized)
    else if LocalGet(s.isRegistered, account) != 1 then Err(NotRegistered)
    else if LocalGet(s.isApproved, account) != 0 then Err(AlreadyApproved)
    else if account !in s.optedIn then Err(NotOptedIn)
    else if s.approvedCount == MAX_UINT64 then Err(Overflow)
    else Ok(s.(isApproved := s.isApproved[account := 1], approvedCount := s.approvedCount + 1))
  }

  /** `revoke_issuer(account)`: admin only, on an approved account. */
  function Revoke(s: State, sender: Address, account: Address): (r: Result<State, Error>)
    ensures sender != s.admin ==> r == Err(OnlyAdminRevoke)
    ensures r.Ok? <==>
      && sender == s.admin
      && LocalGet(s.isApproved, account) == 1
      && account in s.optedIn
      && s.approvedCount > 0
    ensures r.Ok? ==>
      && LocalGet(r.value.isApproved, account) == 0
      && r.value.approvedCount == s.approvedCount - 1
      && (forall a | a != account :: LocalGet(r.value.isApproved, a) == LocalGet(s.isApproved, a))
      && r.value.(isApproved := s.isApproved, approvedCount := s.approvedCount) == s
  {
    if sender != s.admin then Err(OnlyAdminRevoke)
    else if LocalGet(s.isApproved, account) != 1 then Err(NotApproved)
    else if account !in s.optedIn then Err(NotOptedIn)
    else if s.approvedCount == 0 then Err(Underflow)
    else Ok(s.(isApproved := s.isApproved[account := 0], approvedCount := s.approvedCount - 1))
  }

  datatype Call =
    | OptInCall
    | RegisterIssuer
    | VoteFor(holdings: map<UInt64, UInt64>, issuer: Address)
    | ApproveIssuer(account: Address)
    | RevokeIssuer(account: Address)

  function Step(s: State, sender: Address, c: Call): Result<State, Error>
  {
    match c
    case OptInCall => OpenLocalState(s, sender)
    case RegisterIssuer => Register(s, sender)
    case VoteFor(h, i) => CastVote(s, sender, h, i)
    case ApproveIssuer(a) => Approve(s, sender, a)
    case RevokeIssuer(a) => Revoke(s, sender, a)
  }

  /** The state a call leaves: its new state if accepted, else unchanged. */
  function After(s: State, sender: Address, c: Call): State
  {
    match Step(s, sender, c)
    case Ok(s') => s'
    case Err(_) => s
  }

  function Run(s: State, calls: seq<(Address, Call)>): State
    decreases |calls|
  {
    if calls == [] then s else Run(After(s, calls[0].0, calls[0].1), calls[1..])
  }

  // ----- Lemmas -------------------------------------------------------------

  /** Two box keys agree only when voter and issuer both agree, so a box
      identifies one vote. */
  lemma BoxKeyInjective(v1: Address, i1: Address, v2: Address, i2: Address)
    requires BoxKey(v1, i1) == BoxKey(v2, i2)
    ensures v1 == v2 && i1 == i2
  {
    assert v1 == BoxKey(v1, i1)[..ADDRESS_LENGTH];
    assert i1 == BoxKey(v1, i1)[ADDRESS_LENGTH..];
  }

  /** Adding the box of a new vote for `issuer` adds one vote box for
      `issuer` and none for any other account. */
  lemma VoteBoxesAfterPut(boxes: map<Bytes, Bytes>, voter: Address, issuer: Address, i: Address)
    requires BoxKey(voter, issuer) !in boxes
    ensures i == issuer ==> VoteBoxes(boxes[BoxKey(voter, issuer) := VOTE_MARKER], i)
                            == VoteBoxes(boxes, i) + {BoxKey(voter, issuer)}
    ensures i != issuer ==> VoteBoxes(boxes[BoxKey(voter, issuer) := VOTE_MARKER], i)
                            == VoteBoxes(boxes, i)
    ensures |VoteBoxes(boxes[BoxKey(voter, issuer) := VOTE_MARKER], i)|
            == |VoteBoxes(boxes, i)| + (if i == issuer then 1 else 0)
  {
    var k := BoxKey(voter, issuer);
    var after := boxes[k := VOTE_MARKER];
    if i == issuer {
      assert VoteBoxes(after, i) == VoteBoxes(boxes, i) + {k};
    } else {
      assert k[ADDRESS_LENGTH..] != i;
      assert VoteBoxes(after, i) == VoteBoxes(boxes, i);
    }
  }

  lemma VotePreservesInv(s: State, sender: Address, holdings: map<UInt64, UInt64>, issuer: Address)
    requires Inv(s)
    requires CastVote(s, sender, holdings, issuer).Ok?
    ensures Inv(CastVote(s, sender, holdings, issuer).value)
  {
    var s' := CastVote(s, sender, holdings, issuer).value;
    forall i
      ensures LocalGet(s'.voteCount, i) == |VoteBoxes(s'.boxes, i)|
    {
      VoteBoxesAfterPut(s.boxes, sender, issuer, i);
    }
    forall i | LocalGet(s'.isRegistered, i) == 0
      ensures VoteBoxes(s'.boxes, i) == {}
    {
      VoteBoxesAfterPut(s.boxes, sender, issuer, i);
    }
  }

  lemma RegisterPreservesInv(s: State, sender: Address)
    requires Inv(s)
    requires Register(s, sender).Ok?
    ensures Inv(Register(s, sender).value)
  {
    var s' := Register(s, sender).value;
    forall i
      ensures LocalGet(s'.voteCount, i) == |VoteBoxes(s'.boxes, i)|
    {
      if i == sender {
        assert VoteBoxes(s.boxes, i) == {};
      }
    }
  }

  /** Every call keeps the invariant: the approved count matches the approval
      flags, and every issuer's `vote_count` is the number of vote boxes for it. */
  lemma StepPreservesInv(s: State, sender: Address, c: Call)
    requires Inv(s)
    ensures Inv(After(s, sender, c))
  {
    match c
    case OptInCall =>
    case RegisterIssuer =>
      if Register(s, sender).Ok? {
        RegisterPreservesInv(s, sender);
      }
    case VoteFor(h, i) =>
      if CastVote(s, sender, h, i).Ok? {
        VotePreservesInv(s, sender, h, i);
      }
    case ApproveIssuer(a) =>
      if Approve(s, sender, a).Ok? {
        IssuerRegistry.ApprovedSetGrows(s.isApproved, a);
      }
    case RevokeIssuer(a) =>
      if Revoke(s, sender, a).Ok? {
        IssuerRegistry.ApprovedSetShrinks(s.isApproved, a);
      }
  }

  lemma {:induction false} RunPreservesInv(s: State, calls: seq<(Address, Call)>)
    requires Inv(s)
    ensures Inv(Run(s, calls))
    decreases |calls|
  {
    if calls != [] {
      StepPreservesInv(s, calls[0].0, calls[0].1);
      RunPreservesInv(After(s, calls[0].0, calls[0].1), calls[1..]);
    }
  }

  /** No call deletes a box. */
  lemma {:induction false} RunKeepsBoxes(s: State, calls: seq<(Address, Call)>)
    ensures s.boxes.Keys <= Run(s, calls).boxes.Keys
    decreases |calls|
  {
    if calls != [] {
      var next := After(s, calls[0].0, calls[0].1);
      assert s.boxes.Keys <= next.boxes.Keys;
      RunKeepsBoxes(next, calls[1..]);
    }
  }

  /** No double voting: once a vote from `voter` for `issuer` succeeds, its
      box exists, and every later vote from `voter` for `issuer` fails,
      whatever calls come in between. */
  lemma VoteIsFinal(s: State, voter: Address, holdings: map<UInt64, UInt64>, issuer: Address,
                    later: seq<(Address, Call)>, holdingsLater: map<UInt64, UInt64>)
    requires CastVote(s, voter, holdings, issuer).Ok?
    ensures BoxKey(voter, issuer) in CastVote(s, voter, holdings, issuer).value.boxes
    ensures CastVote(Run(CastVote(s, voter, holdings, issuer).value, later), voter, holdingsLater, issuer).Err?
  {
    RunKeepsBoxes(CastVote(s, voter, holdings, issuer).value, later);
  }

  /** A successful vote adds exactly one to the issuer's count, and under the
      invariant that count is the number of distinct voters with a box for it. */
  lemma VoteCountsDistinctVoters(s: State, sender: Address, holdings: map<UInt64, UInt64>, issuer: Address)
    requires Inv(s)
    requires CastVote(s, sender, holdings, issuer).Ok?
    ensures var s' := CastVote(s, sender, holdings, issuer).value;
      && LocalGet(s'.voteCount, issuer) == LocalGet(s.voteCount, issuer) + 1
      && LocalGet(s'.voteCount, issuer) == |VoteBoxes(s'.boxes, issuer)|
  {
    VotePreservesInv(s, sender, holdings, issuer);
  }

  /** The DAO path survives revocation: an issuer that had a vote before the
      admin revoked it can be approved again at once by any sender, because
      revocation leaves `vote_count` as it was. */
  lemma RevocationUndoneByAnySender(s: State, account: Address, anyone: Address)
    requires Inv(s) && |s.admin| == ADDRESS_LENGTH
    requires LocalGet(s.voteCount, account) >= DAO_VOTE_THRESHOLD
    requires Revoke(s, s.admin, account).Ok?
    ensures Approve(Revoke(s, s.admin, account).value, anyone, account).Ok?
  {
    assert LocalGet(s.isRegistered, account) == 1;
  }

  /** Only the admin can approve an issuer nobody has voted for. */
  lemma NoVotesMeansAdminOnly(s: State, sender: Address, account: Address)
    requires LocalGet(s.voteCount, account) == 0
    requires Approve(s, sender, account).Ok?
    ensures sender == s.admin
  {
  }

  // ----- The contract as a stateful object ----------------------------------

  class Registry {
    var admin: Bytes
    var approvedCount: UInt64
    var optedIn: set<Address>
    var isRegistered: map<Address, UInt64>
    var isApproved: map<Address, UInt64>
    var voteCount: map<Address, UInt64>
    var boxes: map<Bytes, Bytes>

    function Abs(): State
      reads this
    {
      State(admin, approvedCount, optedIn, isRegistered, isApproved, voteCount, boxes)
    }

    ghost predicate Valid()
      reads this
    {
      Inv(Abs())
    }

    constructor (sender: Address)
      ensures Valid() && Abs() == Create(sender)
    {
      admin := sender;
      approvedCount := 0;
      optedIn := {};
      isRegistered := map[];
      isApproved := map[];
      voteCount := map[];
      boxes := map[];
    }

    method OptIn(sender: Address) returns (out: Outcome<Error>)
      requires Valid()
      modifies this
      ensures Valid()
      ensures Committed(old(Abs()), OpenLocalState(old(Abs()), sender), Abs(), out)
    {
      if sender in optedIn {
        return Fail(AlreadyOptedIn);
      }
      optedIn := optedIn + {sender};
      out := Pass;
    }

    method RegisterIssuer(sender: Address) returns (out: Outcome<Error>)
      requires Valid()
      modifies this
      ensures Valid()
      ensures Committed(old(Abs()), Register(old(Abs()), sender), Abs(), out)
    {
      var current := LocalGet(isRegistered, sender);
      if current != 0 {
        return Fail(AlreadyRegistered);
      }
      if sender !in optedIn {
        return Fail(NotOptedIn);
      }
      isRegistered := isRegistered[sender := 1];
      voteCount := voteCount[sender := 0];
      out := Pass;
      RegisterPreservesInv(old(Abs()), sender);
    }

    method Vote(sender: Address, holdings: map<UInt64, UInt64>, issuer: Address) returns (out: Outcome<Error>)
      requires Valid()
      modifies this
      ensures Valid()
      ensures Committed(old(Abs()), CastVote(old(Abs()), sender, holdings, issuer), Abs(), out)
    {
      // 1. the sender must hold the governance token
      if !(GOVERNANCE_ASSET_ID in holdings && holdings[GOVERNANCE_ASSET_ID] > 0) {
        return Fail(NoGovernanceToken);
      }
      // 2. the target must be registered and not approved
      var registered := LocalGet(isRegistered, issuer);
      if registered != 1 {
        return Fail(IssuerNotRegistered);
      }
      var approved := LocalGet(isApproved, issuer);
      if approved != 0 {
        return Fail(IssuerAlreadyApproved);
      }
      // 3. one box per (voter, issuer)
      var key := sender + issuer;
      if key in boxes {
        return Fail(AlreadyVoted);
      }
      // 4. record the vote, 5. count it
      var currentVotes := LocalGet(voteCount, issuer);
      if currentVotes == MAX_UINT64 {
        return Fail(Overflow);
      }
      if issuer !in optedIn {
        return Fail(NotOptedIn);
      }
      boxes := boxes[key := VOTE_MARKER];
      voteCount := voteCount[issuer := currentVotes + 1];
      out := Pass;
      VotePreservesInv(old(Abs()), sender, holdings, issuer);
    }

    method ApproveIssuer(sender: Address, account: Address) returns (out: Outcome<Error>)
      requires Valid()
      modifies this
      ensures Valid()
      ensures Committed(old(Abs()), Approve(old(Abs()), sender, account), Abs(), out)
    {
      var isAdmin := sender == admin;
      var votes := LocalGet(voteCount, account);
      var isDao := votes >= DAO_VOTE_THRESHOLD;
      if !(isAdmin || isDao) {
        return Fail(NotAuthorized);
      }
      var registered := LocalGet(isRegistered, account);
      if registered != 1 {
        return Fail(NotRegistered);
      }
      var alreadyApproved := LocalGet(isApproved, account);
      if alreadyApproved != 0 {
        return Fail(AlreadyApproved);
      }
      if account !in optedIn {
        return Fail(NotOptedIn);
      }
      if approvedCount == MAX_UINT64 {
        return Fail(Overflow);
      }
      isApproved := isApproved[account := 1];
      approvedCount := approvedCount + 1;
      out := Pass;
      StepPreservesInv(old(Abs()), sender, Call.ApproveIssuer(account));
    }

    method RevokeIssuer(sender: Address, account: Address) returns (out: Outcome<Error>)
      requires Valid()
      modifies this
      ensures Valid()
      ensures Committed(old(Abs()), Revoke(old(Abs()), sender, account), Abs(), out)
    {
      if sender != admin {
        return Fail(OnlyAdminRevoke);
      }
      var approved := LocalGet(isApproved, account);
      if approved != 1 {
        return Fail(NotApproved);
      }
      if account !in optedIn {
        return Fail(NotOptedIn);
      }
      if approvedCount == 0 {
        return Fail(Underflow);
      }
      isApproved := isApproved[account := 0];
      approvedCount := approvedCount - 1;
      out := Pass;
      StepPreservesInv(old(Abs()), sender, Call.RevokeIssuer(account));
    }

    /** `get_issuer_status(account)` (read-only), under the plain registry's rule. */
    method GetIssuerStatus(account: Address) returns (status: UInt64)
      ensures status == IssuerRegistry.IssuerStatus(isRegistered, isApproved, account)
      ensures status == 0 <==> LocalGet(isRegistered, account) == 0
      ensures status == 2 <==> LocalGet(isRegistered, account) != 0 && LocalGet(isApproved, account) == 1
    {
      var registered := LocalGet(isRegistered, account);
      if registered == 0 {
        return 0;
      }
      var approved := LocalGet(isApproved, account);
      if approved == 1 {
        return 2;
      }
      return 1;
    }

    /** `get_approved_count()` (read-only). */
    method GetApprovedCount() returns (n: UInt64)
      requires Valid()
      ensures n == |IssuerRegistry.ApprovedSet(isApproved)|
    {
      n := approvedCount;
    }
  }
}
