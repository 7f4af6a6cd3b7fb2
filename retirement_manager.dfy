/** The retirement manager: the creator registers credit supply and retires
    credits out of it; the contract keeps the two tallies so that no more is
    retired than was supplied.

    Global state: `total_supply` and `retired_credits`. */
module RetirementManager {
  import opened Avm

  datatype Error =
    | OnlyCreatorAddSupply   // "Only creator can add supply"
    | OnlyCreatorRetire      // "Only creator can retire credits"
    | ZeroAmount             // "Amount must be greater than zero"
    | InsufficientSupply     // "Insufficient supply to retire"
    | Overflow
    | Underflow

  datatype State = State(creator: Address, totalSupply: UInt64, retiredCredits: UInt64)

  /** No more has been retired than was ever supplied. */
  ghost predicate Inv(s: State)
  {
    s.retiredCredits <= s.totalSupply
  }

  /** `create`: both tallies start at 0. */
  function Create(creator: Address): (s: State)
    ensures s.totalSupply == 0 && s.retiredCredits == 0 && Inv(s)
  {
    State(creator, 0, 0)
  }

  /** `add_supply(amount)`: creator only; raises `total_supply` alone. */
  function SupplyAdded(s: State, sender: Address, amount: UInt64): (r: Result<State, Error>)
    ensures sender != s.creator ==> r == Err(OnlyCreatorAddSupply)
    ensures r.Ok? <==> sender == s.creator && amount > 0 && s.totalSupply + amount <= MAX_UINT64
    ensures r.Ok? ==> r.value == s.(totalSupply := s.totalSupply + amount)
  {
    if sender != s.creator then Err(OnlyCreatorAddSupply)
    else if amount == 0 then Err(ZeroAmount)
    else if s.totalSupply + amount > MAX_UINT64 then Err(Overflow)
    else Ok(s.(totalSupply := s.totalSupply + amount))
  }

  /** `get_available_supply()`: supply not yet retired; it aborts when
      `total_supply - retired_credits` would underflow. */
  function AvailableSupply(s: State): (r: Result<UInt64, Error>)
    ensures r.Ok? <==> s.retiredCredits <= s.totalSupply
    ensures r.Ok? ==> r.value + s.retiredCredits == s.totalSupply
  {
    if s.totalSupply < s.retiredCredits then Err(Underflow)
    else Ok(s.totalSupply - s.retiredCredits)
  }

  /** `retire_credits(amount)`: creator only; retires `amount` out of the
      available supply, leaving `total_supply` as it is. */
  function Retire(s: State, sender: Address, amount: UInt64): (r: Result<State, Error>)
    ensures sender != s.creator ==> r == Err(OnlyCreatorRetire)
    ensures r.Ok? <==>
      && sender == s.creator && amount > 0
      && s.retiredCredits <= s.totalSupply
      && s.totalSupply - s.retiredCredits >= amount
    ensures r.Ok? ==> r.value == s.(retiredCredits := s.retiredCredits + amount)
  {
    if sender != s.creator then Err(OnlyCreatorRetire)
    else if amount == 0 then Err(ZeroAmount)
    else if s.totalSupply < s.retiredCredits then Err(Underflow)
    else
      var available := s.totalSupply - s.retiredCredits;
      if available < amount then Err(InsufficientSupply)
      else if s.retiredCredits + amount > MAX_UINT64 then Err(Overflow)
      else Ok(s.(retiredCredits := s.retiredCredits + amount))
  }

  datatype Call = AddSupplyCall(amount: UInt64) | RetireCredits(amount: UInt64)

  function Step(s: State, sender: Address, c: Call): Result<State, Error>
  {
    match c
    case AddSupplyCall(n) => SupplyAdded(s, sender, n)
    case RetireCredits(n) => Retire(s, sender, n)
  }

  function After(s: State, sender: Address, c: Call): State
  {
    match Step(s, sender, c)
    case Ok(s') => s'
    case Err(_) => s
  }

  function Run(s: State, calls: seq<(Address, Call)>): State
    decreases |calls|
  {
    if calls == [] then s else Run(After(s, calls[0].0, calls[0].1), calls[1..])
  }

  // ----- Lemmas -------------------------------------------------------------

  /** Every call keeps `retired_credits <= total_supply`. */
  lemma StepPreservesInv(s: State, sender: Address, c: Call)
    requires Inv(s)
    ensures Inv(After(s, sender, c))
  {
  }

  lemma {:induction false} RunPreservesInv(s: State, calls: seq<(Address, Call)>)
    requires Inv(s)
    ensures Inv(Run(s, calls))
    decreases |calls|
  {
    if calls != [] {
      StepPreservesInv(s, calls[0].0, calls[0].1);
      RunPreservesInv(After(s, calls[0].0, calls[0].1), calls[1..]);
    }
  }

  /** From `create`, after any calls, `get_available_supply` never aborts and
      the retired tally never exceeds the supply. */
  lemma AvailableNeverUnderflows(creator: Address, calls: seq<(Address, Call)>)
    ensures Run(Create(creator), calls).retiredCredits <= Run(Create(creator), calls).totalSupply
    ensures AvailableSupply(Run(Create(creator), calls)).Ok?
  {
    RunPreservesInv(Create(creator), calls);
  }

  /** Under the invariant a retirement fails only on its stated guards (no
      arithmetic abort), and it lowers the available supply by exactly
      `amount`. */
  lemma RetireLowersAvailable(s: State, sender: Address, amount: UInt64)
    requires Inv(s)
    requires sender == s.creator && amount > 0
    requires AvailableSupply(s).value >= amount
    ensures Retire(s, sender, amount).Ok?
    ensures AvailableSupply(Retire(s, sender, amount).value).Ok?
    ensures AvailableSupply(Retire(s, sender, amount).value).value == AvailableSupply(s).value - amount
    ensures Retire(s, sender, amount).value.totalSupply == s.totalSupply
  {
  }

  /** With no supply, as right after `create`, every retirement fails. */
  lemma NoSupplyNoRetirement(s: State, sender: Address, amount: UInt64)
    requires Inv(s) && s.totalSupply == 0
    ensures Retire(s, sender, amount).Err?
  {
  }

  // ----- The contract as a stateful object ----------------------------------

  class Manager {
    const creator: Address
    var totalSupply: UInt64
    var retiredCredits: UInt64

    function Abs(): State
      reads this
    {
      State(creator, totalSupply, retiredCredits)
    }

    ghost predicate Valid()
      reads this
    {
      Inv(Abs())
    }

    constructor (sender: Address)
      ensures Valid() && Abs() == Create(sender)
    {
      creator := sender;
      totalSupply := 0;
      retiredCredits := 0;
    }

    method AddSupply(sender: Address, amount: UInt64) returns (out: Outcome<Error>)
      requires Valid()
      modifies this
      ensures Valid()
      ensures Committed(old(Abs()), SupplyAdded(old(Abs()), sender, amount), Abs(), out)
    {
      if sender != creator {
        return Fail(OnlyCreatorAddSupply);
      }
      if amount == 0 {
        return Fail(ZeroAmount);
      }
      if totalSupply + amount > MAX_UINT64 {
        return Fail(Overflow);
      }
      totalSupply := totalSupply + amount;
      out := Pass;
    }

    method RetireCredits(sender: Address, amount: UInt64) returns (out: Outcome<Error>)
      requires Valid()
      modifies this
      ensures Valid()
      ensures Committed(old(Abs()), Retire(old(Abs()), sender, amount), Abs(), out)
    {
      if sender != creator {
        return Fail(OnlyCreatorRetire);
      }
      if amount == 0 {
        return Fail(ZeroAmount);
      }
      if totalSupply < retiredCredits {
        return Fail(Underflow);
      }
      var available := totalSupply - retiredCredits;
      if available < amount {
        return Fail(InsufficientSupply);
      }
      if retiredCredits + amount > MAX_UINT64 {
        return Fail(Overflow);
      }
      retiredCredits := retiredCredits + amount;
      out := Pass;
    }

    /** `get_retirement_stats()` (read-only): the retired tally. */
    method GetRetirementStats() returns (n: UInt64)
      requires Valid()
      ensures n == retiredCredits && n <= totalSupply
    {
      n := retiredCredits;
    }

    /** `get_available_supply()` (read-only); under the invariant it never
        aborts. */
    method GetAvailableSupply() returns (n: UInt64)
      requires Valid()
      ensures n + retiredCredits == totalSupply
    {
      n := totalSupply - retiredCredits;
    }
  }
}
