/** The plain issuer registry: an admin-run register -> approve -> revoke
    workflow over per-account flags, with a global count of the accounts
    currently approved.

    Global state: `admin` (bytes of the creating account) and
    `approved_count`. Local state of each opted-in account:
    `is_registered` and `is_approved`, both read with default 0. */
module IssuerRegistry {
  import opened Avm

  /** Why the AVM rejects a call, in the order the contract checks. */
  datatype Error =
    | AlreadyOptedIn      // an OptIn call from an account that already has local state
    | AlreadyRegistered   // "Already registered"
    | OnlyAdminApprove    // "Only admin can approve"
    | OnlyAdminRevoke     // "Only admin can revoke"
    | NotRegistered       // "Account not registered"
    | AlreadyApproved     // "Account already approved"
    | NotApproved         // "Account not approved"
    | NotOptedIn          // local-state write for an account without local state
    | Overflow            // `approved_count += 1` beyond 2^64 - 1
    | Underflow           // `approved_count -= 1` below 0

  datatype State = State(
    admin: Bytes,
    approvedCount: UInt64,
    optedIn: set<Address>,
    isRegistered: map<Address, UInt64>,
    isApproved: map<Address, UInt64>)

  /** The accounts whose `is_approved` flag reads 1. */
  function ApprovedSet(m: map<Address, UInt64>): set<Address>
  {
    set a | a in m && m[a] == 1
  }

  /** What the contract keeps true between calls: the counter is the number
      of approved accounts, approval implies registration, and only opted-in
      accounts hold local state. */
  ghost predicate Inv(s: State)
  {
    && s.approvedCount == |ApprovedSet(s.isApproved)|
    && (forall a | a in s.isApproved && s.isApproved[a] == 1 ::
          LocalGet(s.isRegistered, a) == 1)
    && s.isRegistered.Keys <= s.optedIn
    && s.isApproved.Keys <= s.optedIn
  }

  /** `create`: the sender becomes admin and no issuer is approved. */
  function Create(sender: Address): (s: State)
    ensures s.admin == sender && s.approvedCount == 0
    ensures forall a :: LocalGet(s.isRegistered, a) == 0 && LocalGet(s.isApproved, a) == 0
    ensures Inv(s)
  {
    State(sender, 0, {}, map[], map[])
  }

  /** The bare `opt_in` call: gives the sender (empty) local state. */
  function OpenLocalState(s: State, sender: Address): (r: Result<State, Error>)
    ensures r.Ok? <==> sender !in s.optedIn
    ensures r.Ok? ==> r.value == s.(optedIn := s.optedIn + {sender})
  {
    if sender in s.optedIn then Err(AlreadyOptedIn)
    else Ok(s.(optedIn := s.optedIn + {sender}))
  }

  /** `register_issuer`: the sender registers itself, once. */
  function Register(s: State, sender: Address): (r: Result<State, Error>)
    ensures LocalGet(s.isRegistered, sender) != 0 ==> r == Err(AlreadyRegistered)
    ensures r.Ok? <==> LocalGet(s.isRegistered, sender) == 0 && sender in s.optedIn
    ensures r.Ok? ==>
      && LocalGet(r.value.isRegistered, sender) == 1
      && (forall a | a != sender :: LocalGet(r.value.isRegistered, a) == LocalGet(s.isRegistered, a))
      && r.value.(isRegistered := s.isRegistered) == s
  {
    if LocalGet(s.isRegistered, sender) != 0 then Err(AlreadyRegistered)
    else if sender !in s.optedIn then Err(NotOptedIn)
    else Ok(s.(isRegistered := s.isRegistered[sender := 1]))
  }

  /** `approve_issuer(account)`: admin only, on a registered account that is
      not yet approved. */
  function Approve(s: State, sender: Address, account: Address): (r: Result<State, Error>)
    ensures sender != s.admin ==> r == Err(OnlyAdminApprove)
    ensures r.Ok? <==>
      && sender == s.admin
      && LocalGet(s.isRegistered, account) == 1
      && LocalGet(s.isApproved, account) == 0
      && account in s.optedIn
      && s.approvedCount < MAX_UINT64
    ensures r.Ok? ==>
      && LocalGet(r.value.isApproved, account) == 1
      && r.value.approvedCount == s.approvedCount + 1
      && (forall a | a != account :: LocalGet(r.value.isApproved, a) == LocalGet(s.isApproved, a))
      && r.value.(isApproved := s.isApproved, approvedCount := s.approvedCount) == s
  {
    if sender != s.admin then Err(OnlyAdminApprove)
    else if LocalGet(s.isRegistered, account) != 1 then Err(NotRegistered)
    else if LocalGet(s.isApproved, account) != 0 then Err(AlreadyApproved)
    else if account !in s.optedIn then Err(NotOptedIn)
    else if s.approvedCount == MAX_UINT64 then Err(Overflow)
    else Ok(s.(isApproved := s.isApproved[account := 1], approvedCount := s.approvedCount + 1))
  }

  /** `revoke_issuer(account)`: admin only, on an approved account. */
  function Revoke(s: State, sender: Address, account: Address): (r: Result<State, Error>)
    ensures sender != s.admin ==> r == Err(OnlyAdminRevoke)
    ensures r.Ok? <==>
      && sender == s.admin
      && LocalGet(s.isApproved, account) == 1
      && account in s.optedIn
      && s.approvedCount > 0
    ensures r.Ok? ==>
      && LocalGet(r.value.isApproved, account) == 0
      && r.value.approvedCount == s.approvedCount - 1
      && (forall a | a != account :: LocalGet(r.value.isApproved, a) == LocalGet(s.isApproved, a))
      && r.value.(isApproved := s.isApproved, approvedCount := s.approvedCount) == s
  {
    if sender != s.admin then Err(OnlyAdminRevoke)
    else if LocalGet(s.isApproved, account) != 1 then Err(NotApproved)
    else if account !in s.optedIn then Err(NotOptedIn)
    else if s.approvedCount == 0 then Err(Underflow)
    else Ok(s.(isApproved := s.isApproved[account := 0], approvedCount := s.approvedCount - 1))
  }

  /** `get_issuer_status(account)`: 0 not registered, 2 registered and
      approved, 1 registered but not approved. */
  function IssuerStatus(isRegistered: map<Address, UInt64>, isApproved: map<Address, UInt64>, account: Address): (status: UInt64)
    ensures status == 0 || status == 1 || status == 2
    ensures status == 0 <==> LocalGet(isRegistered, account) == 0
    ensures status == 2 <==> LocalGet(isRegistered, account) != 0 && LocalGet(isApproved, account) == 1
  {
    if LocalGet(isRegistered, account) == 0 then 0
    else if LocalGet(isApproved, account) == 1 then 2
    else 1
  }

  /** One application call after `create`, by its ABI method. */
  datatype Call =
    | OptInCall
    | RegisterIssuer
    | ApproveIssuer(account: Address)
    | RevokeIssuer(account: Address)

  function Step(s: State, sender: Address, c: Call): Result<State, Error>
  {
    match c
    case OptInCall => OpenLocalState(s, sender)
    case RegisterIssuer => Register(s, sender)
    case ApproveIssuer(a) => Approve(s, sender, a)
    case RevokeIssuer(a) => Revoke(s, sender, a)
  }

  /** The state after a sequence of calls, each made by its sender; a rejected
      call leaves the state as it was. */
  function Run(s: State, calls: seq<(Address, Call)>): State
    decreases |calls|
  {
    if calls == [] then s
    else
      var next := match Step(s, calls[0].0, calls[0].1)
                  case Ok(s') => s'
                  case Err(_) => s;
      Run(next, calls[1..])
  }

  // ----- Lemmas -------------------------------------------------------------

  /** Approving one more account adds exactly it to the approved set. */
  lemma ApprovedSetGrows(m: map<Address, UInt64>, a: Address)
    requires LocalGet(m, a) != 1
    ensures ApprovedSet(m[a := 1]) == ApprovedSet(m) + {a}
    ensures |ApprovedSet(m[a := 1])| == |ApprovedSet(m)| + 1
  {
    assert a !in ApprovedSet(m);
    assert ApprovedSet(m[a := 1]) == ApprovedSet(m) + {a};
  }

  /** Clearing one approved account removes exactly it from the approved set. */
  lemma ApprovedSetShrinks(m: map<Address, UInt64>, a: Address)
    requires LocalGet(m, a) == 1
    ensures ApprovedSet(m[a := 0]) == ApprovedSet(m) - {a}
    ensures |ApprovedSet(m[a := 0])| == |ApprovedSet(m)| - 1
  {
    assert a in ApprovedSet(m);
    assert ApprovedSet(m[a := 0]) == ApprovedSet(m) - {a};
  }

  /** Every call keeps the invariant: in particular `approved_count` always
      equals the number of accounts whose `is_approved` is 1. */
  lemma StepPreservesInv(s: State, sender: Address, c: Call)
    requires Inv(s)
    ensures Step(s, sender, c).Ok? ==> Inv(Step(s, sender, c).value)
  {
    match c
    case OptInCall =>
    case RegisterIssuer =>
    case ApproveIssuer(a) =>
      if Approve(s, sender, a).Ok? {
        ApprovedSetGrows(s.isApproved, a);
      }
    case RevokeIssuer(a) =>
      if Revoke(s, sender, a).Ok? {
        ApprovedSetShrinks(s.isApproved, a);
      }
  }

  /** From any state satisfying the invariant (such as `Create(admin)`), the
      invariant holds after any sequence of calls. */
  lemma {:induction false} RunPreservesInv(s: State, calls: seq<(Address, Call)>)
    requires Inv(s)
    ensures Inv(Run(s, calls))
    decreases |calls|
  {
    if calls != [] {
      StepPreservesInv(s, calls[0].0, calls[0].1);
      var next := match Step(s, calls[0].0, calls[0].1)
                  case Ok(s') => s'
                  case Err(_) => s;
      RunPreservesInv(next, calls[1..]);
    }
  }

  /** Because approval implies a count of at least one, `revoke_issuer` never
      aborts on the `approved_count -= 1` underflow. */
  lemma RevokeNeverUnderflows(s: State, sender: Address, account: Address)
    requires Inv(s)
    ensures Revoke(s, sender, account) != Err(Underflow)
  {
    if LocalGet(s.isApproved, account) == 1 {
      assert account in ApprovedSet(s.isApproved);
    }
  }

  /** `is_registered` is never reset: once 1 it stays 1 whatever call follows. */
  lemma RegistrationIsPermanent(s: State, sender: Address, c: Call, account: Address)
    requires LocalGet(s.isRegistered, account) == 1
    requires Step(s, sender, c).Ok?
    ensures LocalGet(Step(s, sender, c).value.isRegistered, account) == 1
  {
  }

  /** A revoked issuer stays registered (status 1) and the admin can approve
      it again. */
  lemma RevokedIssuerCanBeReapproved(s: State, account: Address)
    requires Inv(s) && |s.admin| == ADDRESS_LENGTH
    requires Revoke(s, s.admin, account).Ok?
    ensures var s' := Revoke(s, s.admin, account).value;
      IssuerStatus(s'.isRegistered, s'.isApproved, account) == 1
    ensures Approve(Revoke(s, s.admin, account).value, s.admin, account).Ok?
  {
    assert LocalGet(s.isRegistered, account) == 1;
  }

  /** Only the admin ever changes an approval flag or the counter. */
  lemma OnlyAdminChangesApprovals(s: State, sender: Address, c: Call)
    requires sender != s.admin
    requires Step(s, sender, c).Ok?
    ensures Step(s, sender, c).value.isApproved == s.isApproved
    ensures Step(s, sender, c).value.approvedCount == s.approvedCount
  {
  }

  // ----- The contract as a stateful object ----------------------------------

  /** The deployed application: its global and local state as fields, each
      ABI method as a method that performs the contract's checks in order and
      updates the fields in place only when all of them pass. */
  class Registry {
    var admin: Bytes
    var approvedCount: UInt64
    var optedIn: set<Address>
    var isRegistered: map<Address, UInt64>
    var isApproved: map<Address, UInt64>

    function Abs(): State
      reads this
    {
      State(admin, approvedCount, optedIn, isRegistered, isApproved)
    }

    ghost predicate Valid()
      reads this
    {
      Inv(Abs())
    }

    /** `create`, run by the application-creating transaction. */
    constructor (sender: Address)
      ensures Valid() && Abs() == Create(sender)
    {
      admin := sender;
      approvedCount := 0;
      optedIn := {};
      isRegistered := map[];
      isApproved := map[];
    }

    method OptIn(sender: Address) returns (out: Outcome<Error>)
      requires Valid()
      modifies this
      ensures Valid()
      ensures Committed(old(Abs()), OpenLocalState(old(Abs()), sender), Abs(), out)
    {
      if sender in optedIn {
        return Fail(AlreadyOptedIn);
      }
      optedIn := optedIn + {sender};
      out := Pass;
      StepPreservesInv(old(Abs()), sender, OptInCall);
    }

    method RegisterIssuer(sender: Address) returns (out: Outcome<Error>)
      requires Valid()
      modifies this
      ensures Valid()
      ensures Committed(old(Abs()), Register(old(Abs()), sender), Abs(), out)
    {
      var current := LocalGet(isRegistered, sender);
      if current != 0 {
        return Fail(AlreadyRegistered);
      }
      if sender !in optedIn {
        return Fail(NotOptedIn);
      }
      isRegistered := isRegistered[sender := 1];
      out := Pass;
      StepPreservesInv(old(Abs()), sender, Call.RegisterIssuer);
    }

    method ApproveIssuer(sender: Address, account: Address) returns (out: Outcome<Error>)
      requires Valid()
      modifies this
      ensures Valid()
      ensures Committed(old(Abs()), Approve(old(Abs()), sender, account), Abs(), out)
    {
      if sender != admin {
        return Fail(OnlyAdminApprove);
      }
      var registered := LocalGet(isRegistered, account);
      if registered != 1 {
        return Fail(NotRegistered);
      }
      var alreadyApproved := LocalGet(isApproved, account);
      if alreadyApproved != 0 {
        return Fail(AlreadyApproved);
      }
      if account !in optedIn {
        return Fail(NotOptedIn);
      }
      if approvedCount == MAX_UINT64 {
        return Fail(Overflow);
      }
      isApproved := isApproved[account := 1];
      approvedCount := approvedCount + 1;
      out := Pass;
      StepPreservesInv(old(Abs()), sender, Call.ApproveIssuer(account));
    }

    method RevokeIssuer(sender: Address, account: Address) returns (out: Outcome<Error>)
      requires Valid()
      modifies this
      ensures Valid()
      ensures Committed(old(Abs()), Revoke(old(Abs()), sender, account), Abs(), out)
    {
      if sender != admin {
        return Fail(OnlyAdminRevoke);
      }
      var approved := LocalGet(isApproved, account);
      if approved != 1 {
        return Fail(NotApproved);
      }
      if account !in optedIn {
        return Fail(NotOptedIn);
      }
      if approvedCount == 0 {
        return Fail(Underflow);
      }
      isApproved := isApproved[account := 0];
      approvedCount := approvedCount - 1;
      out := Pass;
      StepPreservesInv(old(Abs()), sender, Call.RevokeIssuer(account));
    }

    /** `get_issuer_status(account)` (read-only). */
    method GetIssuerStatus(account: Address) returns (status: UInt64)
      ensures status == IssuerStatus(isRegistered, isApproved, account)
      ensures status == 0 <==> LocalGet(isRegistered, account) == 0
      ensures status == 2 <==> LocalGet(isRegistered, account) != 0 && LocalGet(isApproved, account) == 1
    {
      var registered := LocalGet(isRegistered, account);
      if registered == 0 {
        return 0;
      }
      var approved := LocalGet(isApproved, account);
      if approved == 1 {
        return 2;
      }
      return 1;
    }

    /** `get_approved_count()` (read-only): the number of approved accounts. */
    method GetApprovedCount() returns (n: UInt64)
      requires Valid()
      ensures n == |ApprovedSet(isApproved)|
    {
      n := approvedCount;
    }
  }
}
