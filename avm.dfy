/** Vocabulary shared by the contract models: the AVM's 64-bit unsigned
    integers, 32-byte account addresses, local state read with a default,
    the transactions a call may be grouped with, and the Result type that
    stands for "the call succeeded with this new state" or "the call was
    rejected and nothing changed". */
module Avm {

  /** Largest value of an AVM `uint64`; arithmetic beyond it aborts the call. */
  const MAX_UINT64: int := 0xFFFF_FFFF_FFFF_FFFF

  type UInt64 = x: int | 0 <= x <= MAX_UINT64

  type Bytes = seq<bv8>

  const ADDRESS_LENGTH: nat := 32

  /** An account address is its 32-byte public key. */
  type Address = a: Bytes | |a| == ADDRESS_LENGTH witness seq(32, _ => 0 as bv8)

  /** Outcome of an application call: the new state, or the reason the AVM
      rejected the call (a failed `assert`, an overflow, a write to local
      state of an account that has not opted in). */
  datatype Result<T, E> = Ok(value: T) | Err(error: E)

  /** `LocalState.get(account, default=UInt64(0))`: an absent key (or an
      account without local state) reads as 0. */
  function LocalGet(m: map<Address, UInt64>, a: Address): UInt64
  {
    if a in m then m[a] else 0
  }

  /** What an application call reports back: accepted, or rejected with a reason. */
  datatype Outcome<E> = Pass | Fail(error: E)

  /** The class method that ran a call reports `out` and leaves the state
      `after`; `res` is the specification's verdict from state `before`.
      They agree when an accepted call commits exactly the specified state
      and a rejected call reports the specified reason and changes nothing. */
  ghost predicate Committed<S, E>(before: S, res: Result<S, E>, after: S, out: Outcome<E>)
  {
    match res
    case Ok(s) => out == Pass && after == s
    case Err(e) => out == Fail(e) && after == before
  }

  /** A payment transaction placed in the same group as the application call
      (`gtxn.PaymentTransaction`). */
  datatype Payment = Payment(sender: Address, receiver: Address, amount: UInt64)

  /** An asset transfer in the same group (`gtxn.AssetTransferTransaction`). */
  datatype AssetTransferTxn = AssetTransferTxn(sender: Address, assetReceiver: Address, xferAsset: UInt64, assetAmount: UInt64)

  /** An inner asset transfer issued by the application account
      (`itxn.AssetTransfer(...).submit()`), recorded in a transfer log. */
  datatype InnerTransfer = InnerTransfer(xferAsset: UInt64, assetReceiver: Address, assetAmount: UInt64)
}
