/** The credit-accounting marketplace: the creator mints credits into its own
    balance, anyone buys credits on a linear bonding curve by grouping a
    payment with the call, and holders retire credits from their balance.

    Global state: `total_credits` (credits in circulation) and
    `retired_credits` (cumulative retirements). Local state: `credits_minted`,
    each opted-in account's balance, read with default 0. */
module BondingMarketplace {
  import opened Avm

  /** Price of a credit when none are in circulation: 0.1 ALGO in microAlgos. */
  const BASE_PRICE: UInt64 := 100_000

  /** Price increase per credit in circulation, in microAlgos. */
  const SLOPE: UInt64 := 1

  datatype Error =
    | AlreadyOptedIn
    | OnlyCreatorMint        // "Only creator can mint credits"
    | ZeroAmount             // "Amount must be greater than zero"
    | InsufficientCredits    // "Insufficient credits to retire"
    | PaymentNotToContract   // "Payment must be to contract"
    | InsufficientPayment    // "Insufficient payment"
    | NotOptedIn
    | Overflow
    | Underflow

  datatype State = State(
    creator: Address,        // Global.creator_address
    appAddress: Address,     // Global.current_application_address
    totalCredits: UInt64,
    retiredCredits: UInt64,
    optedIn: set<Address>,
    creditsMinted: map<Address, UInt64>)

  /** The sum of all balances. */
  ghost function Sum(m: map<Address, UInt64>): int
    decreases |m|
  {
    if m == map[] then 0
    else
      var a :| a in m;
      m[a] + Sum(m - {a})
  }

  /** Credits in circulation are exactly the sum of all balances, and only
      opted-in accounts hold a balance. */
  ghost predicate Inv(s: State)
  {
    && s.totalCredits == Sum(s.creditsMinted)
    && s.creditsMinted.Keys <= s.optedIn
  }

  function Create(creator: Address, appAddress: Address): (s: State)
    ensures s.totalCredits == 0 && s.retiredCredits == 0
    ensures forall a :: LocalGet(s.creditsMinted, a) == 0
    ensures Inv(s)
  {
    State(creator, appAddress, 0, 0, {}, map[])
  }

  function OpenLocalState(s: State, sender: Address): (r: Result<State, Error>)
    ensures r.Ok? <==> sender !in s.optedIn
    ensures r.Ok? ==> r.value == s.(optedIn := s.optedIn + {sender})
  {
    if sender in s.optedIn then Err(AlreadyOptedIn)
    else Ok(s.(optedIn := s.optedIn + {sender}))
  }

  /** `mint_credits(amount)`: creator only; adds `amount` to the circulation
      and to the creator's balance. */
  function Mint(s: State, sender: Address, amount: UInt64): (r: Result<State, Error>)
    ensures sender != s.creator ==> r == Err(OnlyCreatorMint)
    ensures sender == s.creator && amount == 0 ==> r == Err(ZeroAmount)
    ensures r.Ok? <==>
      && sender == s.creator && amount > 0
      && s.totalCredits + amount <= MAX_UINT64
      && LocalGet(s.creditsMinted, sender) + amount <= MAX_UINT64
      && sender in s.optedIn
    ensures r.Ok? ==>
      && r.value.totalCredits == s.totalCredits + amount
      && LocalGet(r.value.creditsMinted, sender) == LocalGet(s.creditsMinted, sender) + amount
      && (forall a | a != sender :: LocalGet(r.value.creditsMinted, a) == LocalGet(s.creditsMinted, a))
      && r.value.(totalCredits := s.totalCredits, creditsMinted := s.creditsMinted) == s
  {
    if sender != s.creator then Err(OnlyCreatorMint)
    else if amount == 0 then Err(ZeroAmount)
    else if s.totalCredits + amount > MAX_UINT64 then Err(Overflow)
    else
      var current := LocalGet(s.creditsMinted, sender);
      if current + amount > MAX_UINT64 then Err(Overflow)
      else if sender !in s.optedIn then Err(NotOptedIn)
      else Ok(s.(totalCredits := s.totalCredits + amount,
                 creditsMinted := s.creditsMinted[sender := current + amount]))
  }

  /** `retire_credits(amount)`: any holder moves `amount` of its balance out
      of circulation into the retired tally. */
  function Retire(s: State, sender: Address, amount: UInt64): (r: Result<State, Error>)
    ensures amount == 0 ==> r == Err(ZeroAmount)
    ensures amount > 0 && LocalGet(s.creditsMinted, sender) < amount ==> r == Err(InsufficientCredits)
    ensures r.Ok? <==>
      && amount > 0
      && LocalGet(s.creditsMinted, sender) >= amount
      && sender in s.optedIn
      && s.totalCredits >= amount
      && s.retiredCredits + amount <= MAX_UINT64
    ensures r.Ok? ==>
      && LocalGet(r.value.creditsMinted, sender) == LocalGet(s.creditsMinted, sender) - amount
      && r.value.totalCredits == s.totalCredits - amount
      && r.value.retiredCredits == s.retiredCredits + amount
      && (forall a | a != sender :: LocalGet(r.value.creditsMinted, a) == LocalGet(s.creditsMinted, a))
      && r.value.(totalCredits := s.totalCredits, retiredCredits := s.retiredCredits,
                  creditsMinted := s.creditsMinted) == s
  {
    if amount == 0 then Err(ZeroAmount)
    else
      var current := LocalGet(s.creditsMinted, sender);
      if current < amount then Err(InsufficientCredits)
      else if sender !in s.optedIn then Err(NotOptedIn)
      else if s.totalCredits < amount then Err(Underflow)
      else if s.retiredCredits + amount > MAX_UINT64 then Err(Overflow)
      else Ok(s.(creditsMinted := s.creditsMinted[sender := current - amount],
                 totalCredits := s.totalCredits - amount,
                 retiredCredits := s.retiredCredits + amount))
  }

  /** `get_current_price()`: the unit price on the bonding curve, in
      microAlgos; it aborts when the addition overflows. */
  function CurrentPrice(s: State): (r: Result<UInt64, Error>)
    ensures r.Ok? <==> BASE_PRICE + s.totalCredits <= MAX_UINT64
    ensures r.Ok? ==> r.value == BASE_PRICE + SLOPE * s.totalCredits
  {
    if BASE_PRICE + s.totalCredits * SLOPE > MAX_UINT64 then Err(Overflow)
    else Ok(BASE_PRICE + s.totalCredits * SLOPE)
  }

  /** `buy_credits(payment, amount)`: the grouped payment must go to the
      application account and cover `amount` credits at the current unit
      price; the sender's balance and the circulation grow by `amount`. */
  function Buy(s: State, sender: Address, payment: Payment, amount: UInt64): (r: Result<State, Error>)
    ensures amount == 0 ==> r == Err(ZeroAmount)
    ensures r.Ok? <==>
      && amount > 0
      && CurrentPrice(s).Ok?
      && CurrentPrice(s).value * amount <= MAX_UINT64
      && payment.receiver == s.appAddress
      && payment.amount >= CurrentPrice(s).value * amount
      && s.totalCredits + amount <= MAX_UINT64
      && LocalGet(s.creditsMinted, sender) + amount <= MAX_UINT64
      && sender in s.optedIn
    ensures r.Ok? ==>
      && r.value.totalCredits == s.totalCredits + amount
      && LocalGet(r.value.creditsMinted, sender) == LocalGet(s.creditsMinted, sender) + amount
      && (forall a | a != sender :: LocalGet(r.value.creditsMinted, a) == LocalGet(s.creditsMinted, a))
      && r.value.(totalCredits := s.totalCredits, creditsMinted := s.creditsMinted) == s
  {
    if amount == 0 then Err(ZeroAmount)
    else if BASE_PRICE + s.totalCredits * SLOPE > MAX_UINT64 then Err(Overflow)
    else
      var unitPrice := BASE_PRICE + s.totalCredits * SLOPE;
      if unitPrice * amount > MAX_UINT64 then Err(Overflow)
      else
        var totalCost := unitPrice * amount;
        if payment.receiver != s.appAddress then Err(PaymentNotToContract)
        else if payment.amount < totalCost then Err(InsufficientPayment)
        else if s.totalCredits + amount > MAX_UINT64 then Err(Overflow)
        else
          var currentBal := LocalGet(s.creditsMinted, sender);
          if currentBal + amount > MAX_UINT64 then Err(Overflow)
          else if sender !in s.optedIn then Err(NotOptedIn)
          else Ok(s.(totalCredits := s.totalCredits + amount,
                     creditsMinted := s.creditsMinted[sender := currentBal + amount]))
  }

  datatype Call =
    | OptInCall
    | MintCredits(amount: UInt64)
    | RetireCredits(amount: UInt64)
    | BuyCredits(payment: Payment, amount: UInt64)

  function Step(s: State, sender: Address, c: Call): Result<State, Error>
  {
    match c
    case OptInCall => OpenLocalState(s, sender)
    case MintCredits(n) => Mint(s, sender, n)
    case RetireCredits(n) => Retire(s, sender, n)
    case BuyCredits(p, n) => Buy(s, sender, p, n)
  }

  function After(s: State, sender: Address, c: Call): State
  {
    match Step(s, sender, c)
    case Ok(s') => s'
    case Err(_) => s
  }

  function Run(s: State, calls: seq<(Address, Call)>): State
    decreases |calls|
  {
    if calls == [] then s else Run(After(s, calls[0].0, calls[0].1), calls[1..])
  }

  // ----- Lemmas about the sum of balances -----------------------------------

  /** The sum does not depend on which account is taken out first. */
  lemma {:induction false} SumRemove(m: map<Address, UInt64>, a: Address)
    requires a in m
    ensures Sum(m) == m[a] + Sum(m - {a})
    decreases |m|
  {
    var b :| b in m && Sum(m) == m[b] + Sum(m - {b});
    if b != a {
      assert (m - {b}) - {a} == (m - {a}) - {b};
      SumRemove(m - {b}, a);
      SumRemove(m - {a}, b);
    }
  }

  /** Setting one balance changes the sum by the difference. */
  lemma SumUpdate(m: map<Address, UInt64>, a: Address, v: UInt64)
    ensures Sum(m[a := v]) == Sum(m) - LocalGet(m, a) + v
  {
    var m' := m[a := v];
    SumRemove(m', a);
    assert m' - {a} == m - {a};
    if a in m {
      SumRemove(m, a);
    } else {
      assert m - {a} == m;
    }
  }

  /** No single balance exceeds the sum. */
  lemma SumBound(m: map<Address, UInt64>, a: Address)
    ensures LocalGet(m, a) <= Sum(m)
  {
    if a in m {
      SumRemove(m, a);
      SumNonNegative(m - {a});
    }
  }

  lemma {:induction false} SumNonNegative(m: map<Address, UInt64>)
    ensures Sum(m) >= 0
    decreases |m|
  {
    if m != map[] {
      var b :| b in m && Sum(m) == m[b] + Sum(m - {b});
      SumNonNegative(m - {b});
    }
  }

  // ----- Lemmas about the contract ------------------------------------------

  /** Every call keeps `total_credits` equal to the sum of all balances. */
  lemma StepPreservesInv(s: State, sender: Address, c: Call)
    requires Inv(s)
    ensures Inv(After(s, sender, c))
  {
    match c
    case OptInCall =>
    case MintCredits(n) =>
      if Mint(s, sender, n).Ok? {
        SumUpdate(s.creditsMinted, sender, LocalGet(s.creditsMinted, sender) + n);
      }
    case RetireCredits(n) =>
      if Retire(s, sender, n).Ok? {
        SumUpdate(s.creditsMinted, sender, LocalGet(s.creditsMinted, sender) - n);
      }
    case BuyCredits(p, n) =>
      if Buy(s, sender, p, n).Ok? {
        SumUpdate(s.creditsMinted, sender, LocalGet(s.creditsMinted, sender) + n);
      }
  }

  lemma {:induction false} RunPreservesInv(s: State, calls: seq<(Address, Call)>)
    requires Inv(s)
    ensures Inv(Run(s, calls))
    decreases |calls|
  {
    if calls != [] {
      StepPreservesInv(s, calls[0].0, calls[0].1);
      RunPreservesInv(After(s, calls[0].0, calls[0].1), calls[1..]);
    }
  }

  /** Because a holder's balance is part of the circulation, the
      `total_credits -= amount` in a retirement never underflows. */
  lemma RetireNeverUnderflows(s: State, sender: Address, amount: UInt64)
    requires Inv(s)
    ensures Retire(s, sender, amount) != Err(Underflow)
  {
    SumBound(s.creditsMinted, sender);
  }

  /** `retired_credits` never decreases, whatever calls are made. */
  lemma {:induction false} RetiredNeverDecreases(s: State, calls: seq<(Address, Call)>)
    ensures Run(s, calls).retiredCredits >= s.retiredCredits
    decreases |calls|
  {
    if calls != [] {
      RetiredNeverDecreases(After(s, calls[0].0, calls[0].1), calls[1..]);
    }
  }

  /** A purchase of `amount` credits raises the unit price by exactly
      `amount` microAlgos. */
  lemma BuyRaisesPriceByAmount(s: State, sender: Address, payment: Payment, amount: UInt64)
    requires Buy(s, sender, payment, amount).Ok?
    requires CurrentPrice(Buy(s, sender, payment, amount).value).Ok?
    ensures CurrentPrice(Buy(s, sender, payment, amount).value).value
            == CurrentPrice(s).value + amount
  {
  }

  /** A purchase is rejected whenever the payment falls short of the unit
      price times the amount. */
  lemma UnderpaymentRejected(s: State, sender: Address, payment: Payment, amount: UInt64)
    requires CurrentPrice(s).Ok?
    requires payment.amount < CurrentPrice(s).value * amount
    ensures Buy(s, sender, payment, amount).Err?
  {
  }

  // ----- The contract as a stateful object ----------------------------------

  class Marketplace {
    const creator: Address
    const appAddress: Address
    var totalCredits: UInt64
    var retiredCredits: UInt64
    var optedIn: set<Address>
    var creditsMinted: map<Address, UInt64>

    function Abs(): State
      reads this
    {
      State(creator, appAddress, totalCredits, retiredCredits, optedIn, creditsMinted)
    }

    ghost predicate Valid()
      reads this
    {
      Inv(Abs())
    }

    /** `create`, run by the application-creating transaction from `sender`;
        `appAddress` is the account the ledger assigns to the application. */
    constructor (sender: Address, appAddress: Address)
      ensures Valid() && Abs() == Create(sender, appAddress)
    {
      creator := sender;
      this.appAddress := appAddress;
      totalCredits := 0;
      retiredCredits := 0;
      optedIn := {};
      creditsMinted := map[];
    }

    method OptIn(sender: Address) returns (out: Outcome<Error>)
      requires Valid()
      modifies this
      ensures Valid()
      ensures Committed(old(Abs()), OpenLocalState(old(Abs()), sender), Abs(), out)
    {
      if sender in optedIn {
        return Fail(AlreadyOptedIn);
      }
      optedIn := optedIn + {sender};
      out := Pass;
    }

    method MintCredits(sender: Address, amount: UInt64) returns (out: Outcome<Error>)
      requires Valid()
      modifies this
      ensures Valid()
      ensures Committed(old(Abs()), Mint(old(Abs()), sender, amount), Abs(), out)
    {
      if sender != creator {
        return Fail(OnlyCreatorMint);
      }
      if amount == 0 {
        return Fail(ZeroAmount);
      }
      if totalCredits + amount > MAX_UINT64 {
        return Fail(Overflow);
      }
      var current := LocalGet(creditsMinted, sender);
      if current + amount > MAX_UINT64 {
        return Fail(Overflow);
      }
      if sender !in optedIn {
        return Fail(NotOptedIn);
      }
      totalCredits := totalCredits + amount;
      creditsMinted := creditsMinted[sender := current + amount];
      out := Pass;
      StepPreservesInv(old(Abs()), sender, Call.MintCredits(amount));
    }

    method RetireCredits(sender: Address, amount: UInt64) returns (out: Outcome<Error>)
      requires Valid()
      modifies this
      ensures Valid()
      ensures Committed(old(Abs()), Retire(old(Abs()), sender, amount), Abs(), out)
      ensures retiredCredits >= old(retiredCredits)
    {
      if amount == 0 {
        return Fail(ZeroAmount);
      }
      var current := LocalGet(creditsMinted, sender);
      if current < amount {
        return Fail(InsufficientCredits);
      }
      if sender !in optedIn {
        return Fail(NotOptedIn);
      }
      if totalCredits < amount {
        return Fail(Underflow);
      }
      if retiredCredits + amount > MAX_UINT64 {
        return Fail(Overflow);
      }
      creditsMinted := creditsMinted[sender := current - amount];
      totalCredits := totalCredits - amount;
      retiredCredits := retiredCredits + amount;
      out := Pass;
      StepPreservesInv(old(Abs()), sender, Call.RetireCredits(amount));
    }

    method BuyCredits(sender: Address, payment: Payment, amount: UInt64) returns (out: Outcome<Error>)
      requires Valid()
      modifies this
      ensures Valid()
      ensures Committed(old(Abs()), Buy(old(Abs()), sender, payment, amount), Abs(), out)
    {
      if amount == 0 {
        return Fail(ZeroAmount);
      }
      if BASE_PRICE + totalCredits * SLOPE > MAX_UINT64 {
        return Fail(Overflow);
      }
      var unitPrice := BASE_PRICE + totalCredits * SLOPE;
      if unitPrice * amount > MAX_UINT64 {
        return Fail(Overflow);
      }
      var totalCost := unitPrice * amount;
      if payment.receiver != appAddress {
        return Fail(PaymentNotToContract);
      }
      if payment.amount < totalCost {
        return Fail(InsufficientPayment);
      }
      if totalCredits + amount > MAX_UINT64 {
        return Fail(Overflow);
      }
      var currentBal := LocalGet(creditsMinted, sender);
      if currentBal + amount > MAX_UINT64 {
        return Fail(Overflow);
      }
      if sender !in optedIn {
        return Fail(NotOptedIn);
      }
      totalCredits := totalCredits + amount;
      creditsMinted := creditsMinted[sender := currentBal + amount];
      out := Pass;
      StepPreservesInv(old(Abs()), sender, Call.BuyCredits(payment, amount));
    }

    /** `get_current_price()` (read-only). */
    method GetCurrentPrice() returns (r: Result<UInt64, Error>)
      ensures r == CurrentPrice(Abs())
      ensures r.Ok? ==> r.value == BASE_PRICE + totalCredits
    {
      if BASE_PRICE + totalCredits * SLOPE > MAX_UINT64 {
        return Err(Overflow);
      }
      r := Ok(BASE_PRICE + totalCredits * SLOPE);
    }

    /** `get_credits(account)` (read-only): the account's balance, 0 when it
        has none recorded. */
    method GetCredits(account: Address) returns (n: UInt64)
      ensures account !in creditsMinted ==> n == 0
      ensures account in creditsMinted ==> n == creditsMinted[account]
    {
      n := LocalGet(creditsMinted, account);
    }

    /** `get_total_credits()` (read-only): the sum of all balances. */
    method GetTotalCredits() returns (n: UInt64)
      requires Valid()
      ensures n == Sum(creditsMinted)
    {
      n := totalCredits;
    }

    /** `get_retired_credits()` (read-only). */
    method GetRetiredCredits() returns (n: UInt64)
      ensures n == retiredCredits
    {
      n := retiredCredits;
    }
  }
}
