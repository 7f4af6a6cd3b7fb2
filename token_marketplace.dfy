/** The token marketplace: credits are a real asset ($CXT). The creator sets
    the asset once (the application opts in to it with a zero-amount transfer
    to itself), deposits stock with an asset transfer, and buyers receive
    the asset through an inner transfer when they group a payment with
    `buy_credits`.

    Global state: `total_credits` (credits distributed), `retired_credits`
    and `cxt_asset_id` (0 until initialised). No local state. Inner
    transactions are recorded in the order they are issued. */
module TokenMarketplace {
  import opened Avm

  datatype Error =
    | OnlyCreatorInit         // "Only creator can init asset"
    | AlreadyInitialized      // "Asset already initialized"
    | NoSuchAsset             // the opt-in transfer names asset 0, which no asset has
    | PaymentNotToContract    // "Payment must be to contract"
    | ZeroAmount              // "Amount must be greater than zero"
    | AssetNotInitialized     // "Asset not initialized"
    | OnlyCreatorDeposit      // "Only creator can deposit credits"
    | TransferNotToContract   // "Transfer must be to contract"
    | IncorrectAssetId        // "Incorrect asset ID"
    | Overflow

  datatype State = State(
    creator: Address,
    appAddress: Address,
    totalCredits: UInt64,
    retiredCredits: UInt64,
    cxtAssetId: UInt64,
    transfers: seq<InnerTransfer>)

  /** The total amount moved by a log of inner transfers. */
  function Distributed(ts: seq<InnerTransfer>): nat
  {
    if ts == [] then 0 else Distributed(ts[..|ts| - 1]) + ts[|ts| - 1].assetAmount
  }

  /** Every credit counted in `total_credits` left the application as the
      stored asset, no transfer names any other asset, nothing is ever
      retired, and before initialisation nothing was transferred. */
  ghost predicate Inv(s: State)
  {
    && s.totalCredits == Distributed(s.transfers)
    && (forall k | 0 <= k < |s.transfers| :: s.transfers[k].xferAsset == s.cxtAssetId)
    && (s.cxtAssetId == 0 ==> s.transfers == [])
    && s.retiredCredits == 0
  }

  /** `create`: every counter and the asset id start at 0. */
  function Create(creator: Address, appAddress: Address): (s: State)
    ensures s.totalCredits == 0 && s.retiredCredits == 0 && s.cxtAssetId == 0
    ensures s.transfers == []
    ensures Inv(s)
  {
    State(creator, appAddress, 0, 0, 0, [])
  }

  /** `init_asset(asset)`: creator only, and only while no asset is set;
      stores the id and opts the application in to the asset. */
  function InitialiseAsset(s: State, sender: Address, asset: UInt64): (r: Result<State, Error>)
    ensures sender != s.creator ==> r == Err(OnlyCreatorInit)
    ensures r.Ok? <==> sender == s.creator && s.cxtAssetId == 0 && asset != 0
    ensures r.Ok? ==>
      && r.value.cxtAssetId == asset
      && r.value.transfers == s.transfers + [InnerTransfer(asset, s.appAddress, 0)]
      && r.value.(cxtAssetId := s.cxtAssetId, transfers := s.transfers) == s
  {
    if sender != s.creator then Err(OnlyCreatorInit)
    else if s.cxtAssetId != 0 then Err(AlreadyInitialized)
    else if asset == 0 then Err(NoSuchAsset)
    else Ok(s.(cxtAssetId := asset,
               transfers := s.transfers + [InnerTransfer(asset, s.appAddress, 0)]))
  }

  /** `buy_credits(buyer_tx, amount)`: the payment must go to the application
      and the asset must be set; the sender receives `amount` of the asset.
      The payment's amount is not compared with any price. */
  function Buy(s: State, sender: Address, buyerTx: Payment, amount: UInt64): (r: Result<State, Error>)
    ensures buyerTx.receiver != s.appAddress ==> r == Err(PaymentNotToContract)
    ensures r.Ok? <==>
      && buyerTx.receiver == s.appAddress
      && amount > 0
      && s.cxtAssetId != 0
      && s.totalCredits + amount <= MAX_UINT64
    ensures r.Ok? ==>
      && r.value.transfers == s.transfers + [InnerTransfer(s.cxtAssetId, sender, amount)]
      && r.value.totalCredits == s.totalCredits + amount
      && r.value.(transfers := s.transfers, totalCredits := s.totalCredits) == s
  {
    if buyerTx.receiver != s.appAddress then Err(PaymentNotToContract)
    else if amount == 0 then Err(ZeroAmount)
    else if s.cxtAssetId == 0 then Err(AssetNotInitialized)
    else if s.totalCredits + amount > MAX_UINT64 then Err(Overflow)
    else Ok(s.(transfers := s.transfers + [InnerTransfer(s.cxtAssetId, sender, amount)],
               totalCredits := s.totalCredits + amount))
  }

  /** `mint_credits(axfer_tx)`: a creator's deposit of the stored asset into
      the application. It only checks; no contract state changes. */
  function Deposit(s: State, sender: Address, axfer: AssetTransferTxn): (r: Result<State, Error>)
    ensures r.Ok? <==>
      && sender == s.creator
      && axfer.assetReceiver == s.appAddress
      && axfer.xferAsset == s.cxtAssetId
    ensures r.Ok? ==> r.value == s
  {
    if sender != s.creator then Err(OnlyCreatorDeposit)
    else if axfer.assetReceiver != s.appAddress then Err(TransferNotToContract)
    else if axfer.xferAsset != s.cxtAssetId then Err(IncorrectAssetId)
    else Ok(s)
  }

  datatype Call =
    | InitAssetCall(asset: UInt64)
    | BuyCredits(buyerTx: Payment, amount: UInt64)
    | MintCredits(axfer: AssetTransferTxn)

  function Step(s: State, sender: Address, c: Call): Result<State, Error>
  {
    match c
    case InitAssetCall(a) => InitialiseAsset(s, sender, a)
    case BuyCredits(p, n) => Buy(s, sender, p, n)
    case MintCredits(x) => Deposit(s, sender, x)
  }

  function After(s: State, sender: Address, c: Call): State
  {
    match Step(s, sender, c)
    case Ok(s') => s'
    case Err(_) => s
  }

  function Run(s: State, calls: seq<(Address, Call)>): State
    decreases |calls|
  {
    if calls == [] then s else Run(After(s, calls[0].0, calls[0].1), calls[1..])
  }

  // ----- Lemmas -------------------------------------------------------------

  lemma DistributedAppend(ts: seq<InnerTransfer>, t: InnerTransfer)
    ensures Distributed(ts + [t]) == Distributed(ts) + t.assetAmount
  {
    assert (ts + [t])[..|ts|] == ts;
  }

  /** Every call keeps the invariant: `total_credits` is what the
      application has handed out, all of it in the stored asset, and
      `retired_credits` stays 0 since no method writes it. */
  lemma StepPreservesInv(s: State, sender: Address, c: Call)
    requires Inv(s)
    ensures Inv(After(s, sender, c))
  {
    match c
    case InitAssetCall(a) =>
      if InitialiseAsset(s, sender, a).Ok? {
        DistributedAppend(s.transfers, InnerTransfer(a, s.appAddress, 0));
      }
    case BuyCredits(p, n) =>
      if Buy(s, sender, p, n).Ok? {
        DistributedAppend(s.transfers, InnerTransfer(s.cxtAssetId, sender, n));
      }
    case MintCredits(x) =>
  }

  lemma {:induction false} RunPreservesInv(s: State, calls: seq<(Address, Call)>)
    requires Inv(s)
    ensures Inv(Run(s, calls))
    decreases |calls|
  {
    if calls != [] {
      StepPreservesInv(s, calls[0].0, calls[0].1);
      RunPreservesInv(After(s, calls[0].0, calls[0].1), calls[1..]);
    }
  }

  /** Once set, the asset id never changes. */
  lemma {:induction false} AssetIdIsStable(s: State, calls: seq<(Address, Call)>)
    requires s.cxtAssetId != 0
    ensures Run(s, calls).cxtAssetId == s.cxtAssetId
    decreases |calls|
  {
    if calls != [] {
      AssetIdIsStable(After(s, calls[0].0, calls[0].1), calls[1..]);
    }
  }

  /** `init_asset` succeeds at most once: after one success, every later
      `init_asset`, by anyone and after any calls, is rejected. */
  lemma InitAssetAtMostOnce(s: State, sender: Address, asset: UInt64,
                            later: seq<(Address, Call)>, sender2: Address, asset2: UInt64)
    requires InitialiseAsset(s, sender, asset).Ok?
    ensures InitialiseAsset(Run(InitialiseAsset(s, sender, asset).value, later), sender2, asset2).Err?
  {
    AssetIdIsStable(InitialiseAsset(s, sender, asset).value, later);
  }

  /** The purchase outcome does not depend on how much was paid: the price
      check is absent. */
  lemma BuyIgnoresPaymentAmount(s: State, sender: Address, p: Payment, q: Payment, amount: UInt64)
    requires p.receiver == q.receiver
    ensures Buy(s, sender, p, amount) == Buy(s, sender, q, amount)
  {
  }

  // ----- The contract as a stateful object ----------------------------------

  class Marketplace {
    const creator: Address
    const appAddress: Address
    var totalCredits: UInt64
    var retiredCredits: UInt64
    var cxtAssetId: UInt64
    var transfers: seq<InnerTransfer>

    function Abs(): State
      reads this
    {
      State(creator, appAddress, totalCredits, retiredCredits, cxtAssetId, transfers)
    }

    ghost predicate Valid()
      reads this
    {
      Inv(Abs())
    }

    constructor (sender: Address, appAddress: Address)
      ensures Valid() && Abs() == Create(sender, appAddress)
    {
      creator := sender;
      this.appAddress := appAddress;
      totalCredits := 0;
      retiredCredits := 0;
      cxtAssetId := 0;
      transfers := [];
    }

    method InitAsset(sender: Address, asset: UInt64) returns (out: Outcome<Error>)
      requires Valid()
      modifies this
      ensures Valid()
      ensures Committed(old(Abs()), InitialiseAsset(old(Abs()), sender, asset), Abs(), out)
    {
      if sender != creator {
        return Fail(OnlyCreatorInit);
      }
      if cxtAssetId != 0 {
        return Fail(AlreadyInitialized);
      }
      if asset == 0 {
        return Fail(NoSuchAsset);
      }
      cxtAssetId := asset;
      transfers := transfers + [InnerTransfer(asset, appAddress, 0)];
      out := Pass;
      StepPreservesInv(old(Abs()), sender, InitAssetCall(asset));
    }

    method BuyCredits(sender: Address, buyerTx: Payment, amount: UInt64) returns (out: Outcome<Error>)
      requires Valid()
      modifies this
      ensures Valid()
      ensures Committed(old(Abs()), Buy(old(Abs()), sender, buyerTx, amount), Abs(), out)
    {
      if buyerTx.receiver != appAddress {
        return Fail(PaymentNotToContract);
      }
      if amount == 0 {
        return Fail(ZeroAmount);
      }
      var assetId := cxtAssetId;
      if assetId == 0 {
        return Fail(AssetNotInitialized);
      }
      if totalCredits + amount > MAX_UINT64 {
        return Fail(Overflow);
      }
      transfers := transfers + [InnerTransfer(assetId, sender, amount)];
      totalCredits := totalCredits + amount;
      out := Pass;
      StepPreservesInv(old(Abs()), sender, Call.BuyCredits(buyerTx, amount));
    }

    method MintCredits(sender: Address, axfer: AssetTransferTxn) returns (out: Outcome<Error>)
      requires Valid()
      ensures Committed(Abs(), Deposit(Abs(), sender, axfer), Abs(), out)
    {
      if sender != creator {
        return Fail(OnlyCreatorDeposit);
      }
      if axfer.assetReceiver != appAddress {
        return Fail(TransferNotToContract);
      }
      if axfer.xferAsset != cxtAssetId {
        return Fail(IncorrectAssetId);
      }
      out := Pass;
    }

    /** `get_asset_id()` (read-only). */
    method GetAssetId() returns (id: UInt64)
      ensures id == cxtAssetId
    {
      id := cxtAssetId;
    }

    /** `get_total_credits()` (read-only): all credits handed out. */
    method GetTotalCredits() returns (n: UInt64)
      requires Valid()
      ensures n == Distributed(transfers)
    {
      n := totalCredits;
    }

    /** `get_retired_credits()` (read-only): always 0 in this contract. */
    method GetRetiredCredits() returns (n: UInt64)
      requires Valid()
      ensures n == 0
    {
      n := retiredCredits;
    }
  }
}
