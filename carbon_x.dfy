/** The CarbonX credit registry: the creator names a project and mints
    credits; anyone retires credits, which moves them from the live tally to
    the retired tally.

    Global state: `project_name`, `total_credits` and `retired_credits`. */
module CarbonX {
  import opened Avm

  datatype Error =
    | OnlyCreatorRegister   // "Only creator can register projects"
    | OnlyCreatorMint       // "Only creator can mint credits"
    | ZeroAmount            // "Amount must be greater than zero"
    | InsufficientCredits   // "Insufficient credits to retire"
    | ValueTooLong          // the AVM refuses a global key plus value over 128 bytes
    | Overflow

  /** The global-state key `project_name`, as bytes. */
  const PROJECT_NAME_KEY: Bytes := [0x70, 0x72, 0x6f, 0x6a, 0x65, 0x63, 0x74, 0x5f, 0x6e, 0x61, 0x6d, 0x65]

  /** The AVM's bound on the length of a global-state key and its byte value together. */
  const MAX_KEY_VALUE_LENGTH: nat := 128

  datatype State = State(creator: Address, projectName: Bytes, totalCredits: UInt64, retiredCredits: UInt64)

  /** A stored project name always fits the AVM's key-plus-value bound. */
  ghost predicate Inv(s: State)
  {
    |PROJECT_NAME_KEY| + |s.projectName| <= MAX_KEY_VALUE_LENGTH
  }

  /** `create`: an empty project name and both tallies at 0. */
  function Create(creator: Address): (s: State)
    ensures s.projectName == [] && s.totalCredits == 0 && s.retiredCredits == 0
    ensures Inv(s)
  {
    State(creator, [], 0, 0)
  }

  /** `register_project(name)`: creator only; replaces the project name and
      nothing else. */
  function RegisterProject(s: State, sender: Address, name: Bytes): (r: Result<State, Error>)
    ensures sender != s.creator ==> r == Err(OnlyCreatorRegister)
    ensures r.Ok? <==> sender == s.creator && |name| <= MAX_KEY_VALUE_LENGTH - |PROJECT_NAME_KEY|
    ensures r.Ok? ==> r.value == s.(projectName := name)
  {
    if sender != s.creator then Err(OnlyCreatorRegister)
    else if |PROJECT_NAME_KEY| + |name| > MAX_KEY_VALUE_LENGTH then Err(ValueTooLong)
    else Ok(s.(projectName := name))
  }

  /** `mint_credits(amount)`: creator only; raises `total_credits` alone. */
  function Mint(s: State, sender: Address, amount: UInt64): (r: Result<State, Error>)
    ensures sender != s.creator ==> r == Err(OnlyCreatorMint)
    ensures r.Ok? <==> sender == s.creator && amount > 0 && s.totalCredits + amount <= MAX_UINT64
    ensures r.Ok? ==> r.value == s.(totalCredits := s.totalCredits + amount)
  {
    if sender != s.creator then Err(OnlyCreatorMint)
    else if amount == 0 then Err(ZeroAmount)
    else if s.totalCredits + amount > MAX_UINT64 then Err(Overflow)
    else Ok(s.(totalCredits := s.totalCredits + amount))
  }

  /** `retire_credits(amount)`: any sender; moves `amount` from the live tally
      to the retired tally. */
  function Retire(s: State, amount: UInt64): (r: Result<State, Error>)
    ensures r.Ok? <==> 0 < amount <= s.totalCredits && s.retiredCredits + amount <= MAX_UINT64
    ensures r.Ok? ==> r.value == s.(totalCredits := s.totalCredits - amount,
                                    retiredCredits := s.retiredCredits + amount)
  {
    if amount == 0 then Err(ZeroAmount)
    else if s.totalCredits < amount then Err(InsufficientCredits)
    else if s.retiredCredits + amount > MAX_UINT64 then Err(Overflow)
    else Ok(s.(totalCredits := s.totalCredits - amount, retiredCredits := s.retiredCredits + amount))
  }

  datatype Call = RegisterProjectCall(name: Bytes) | MintCredits(amount: UInt64) | RetireCredits(amount: UInt64)

  function Step(s: State, sender: Address, c: Call): Result<State, Error>
  {
    match c
    case RegisterProjectCall(name) => RegisterProject(s, sender, name)
    case MintCredits(n) => Mint(s, sender, n)
    case RetireCredits(n) => Retire(s, n)
  }

  function After(s: State, sender: Address, c: Call): State
  {
    match Step(s, sender, c)
    case Ok(s') => s'
    case Err(_) => s
  }

  function Run(s: State, calls: seq<(Address, Call)>): State
    decreases |calls|
  {
    if calls == [] then s else Run(After(s, calls[0].0, calls[0].1), calls[1..])
  }

  /** Credits minted by the `mint_credits` calls that succeed along `calls`. */
  function MintedAlong(s: State, calls: seq<(Address, Call)>): nat
    decreases |calls|
  {
    if calls == [] then 0
    else
      var (sender, c) := calls[0];
      var here := if c.MintCredits? && Step(s, sender, c).Ok? then c.amount else 0;
      here + MintedAlong(After(s, sender, c), calls[1..])
  }

  // ----- Lemmas -------------------------------------------------------------

  lemma StepPreservesInv(s: State, sender: Address, c: Call)
    requires Inv(s)
    ensures Inv(After(s, sender, c))
  {
  }

  lemma {:induction false} RunPreservesInv(s: State, calls: seq<(Address, Call)>)
    requires Inv(s)
    ensures Inv(Run(s, calls))
    decreases |calls|
  {
    if calls != [] {
      StepPreservesInv(s, calls[0].0, calls[0].1);
      RunPreservesInv(After(s, calls[0].0, calls[0].1), calls[1..]);
    }
  }

  /** Conservation: live plus retired credits equal what was there before plus
      every credit minted since; retiring and renaming create or destroy none. */
  lemma {:induction false} CreditsConserved(s: State, calls: seq<(Address, Call)>)
    ensures Run(s, calls).totalCredits + Run(s, calls).retiredCredits
         == s.totalCredits + s.retiredCredits + MintedAlong(s, calls)
    decreases |calls|
  {
    if calls != [] {
      CreditsConserved(After(s, calls[0].0, calls[0].1), calls[1..]);
    }
  }

  /** From `create`, the live and retired tallies together are exactly what
      was minted. */
  lemma RetiredNeverExceedsMinted(creator: Address, calls: seq<(Address, Call)>)
    ensures Run(Create(creator), calls).retiredCredits <= MintedAlong(Create(creator), calls)
    ensures Run(Create(creator), calls).totalCredits + Run(Create(creator), calls).retiredCredits
         == MintedAlong(Create(creator), calls)
  {
    CreditsConserved(Create(creator), calls);
  }

  /** The retired tally never decreases. */
  lemma {:induction false} RetiredNeverDecreases(s: State, calls: seq<(Address, Call)>)
    ensures Run(s, calls).retiredCredits >= s.retiredCredits
    decreases |calls|
  {
    if calls != [] {
      RetiredNeverDecreases(After(s, calls[0].0, calls[0].1), calls[1..]);
    }
  }

  /** Only the creator changes the live tally upward or the name; a call by
      anyone else can only retire. */
  lemma OthersOnlyRetire(s: State, sender: Address, c: Call)
    requires sender != s.creator
    ensures After(s, sender, c).projectName == s.projectName
    ensures After(s, sender, c).totalCredits <= s.totalCredits
    ensures After(s, sender, c).creator == s.creator
  {
  }

  // ----- The contract as a stateful object ----------------------------------

  class Registry {
    const creator: Address
    var projectName: Bytes
    var totalCredits: UInt64
    var retiredCredits: UInt64

    function Abs(): State
      reads this
    {
      State(creator, projectName, totalCredits, retiredCredits)
    }

    ghost predicate Valid()
      reads this
    {
      Inv(Abs())
    }

    constructor (sender: Address)
      ensures Valid() && Abs() == Create(sender)
    {
      creator := sender;
      projectName := [];
      totalCredits := 0;
      retiredCredits := 0;
    }

    method RegisterProjectName(sender: Address, name: Bytes) returns (out: Outcome<Error>)
      requires Valid()
      modifies this
      ensures Valid()
      ensures Committed(old(Abs()), RegisterProject(old(Abs()), sender, name), Abs(), out)
    {
      if sender != creator {
        return Fail(OnlyCreatorRegister);
      }
      if |PROJECT_NAME_KEY| + |name| > MAX_KEY_VALUE_LENGTH {
        return Fail(ValueTooLong);
      }
      projectName := name;
      out := Pass;
    }

    method MintCredits(sender: Address, amount: UInt64) returns (out: Outcome<Error>)
      requires Valid()
      modifies this
      ensures Valid()
      ensures Committed(old(Abs()), Mint(old(Abs()), sender, amount), Abs(), out)
      ensures totalCredits + retiredCredits == old(totalCredits + retiredCredits) + (if out.Pass? then amount else 0)
    {
      if sender != creator {
        return Fail(OnlyCreatorMint);
      }
      if amount == 0 {
        return Fail(ZeroAmount);
      }
      if totalCredits + amount > MAX_UINT64 {
        return Fail(Overflow);
      }
      totalCredits := totalCredits + amount;
      out := Pass;
    }

    method RetireCredits(amount: UInt64) returns (out: Outcome<Error>)
      requires Valid()
      modifies this
      ensures Valid()
      ensures Committed(old(Abs()), Retire(old(Abs()), amount), Abs(), out)
      ensures totalCredits + retiredCredits == old(totalCredits + retiredCredits)
    {
      if amount == 0 {
        return Fail(ZeroAmount);
      }
      if totalCredits < amount {
        return Fail(InsufficientCredits);
      }
      if retiredCredits + amount > MAX_UINT64 {
        return Fail(Overflow);
      }
      totalCredits := totalCredits - amount;
      retiredCredits := retiredCredits + amount;
      out := Pass;
    }
  }
}
