/** The instantiation message and the checks the contract runs on it. */
module Msg {
  import opened Wrappers
  import opened CosmwasmStd

  const MAX_DECIMALS: nat := 18
  const DECIMALS_ERROR: string := "Decimals must not exceed 18"

  /** One entry of the initial distribution. */
  datatype InitialBalance = InitialBalance(address: Addr, amount: Uint128)

  /** The minter to configure, with its optional supply cap. */
  datatype MinterMsg = MinterMsg(minter: Addr, cap: Option<Uint128>)

  /**
   * `cap` is the message's top-level cap field; no code path reads it:
   * the cap that counts is the one carried by the minter.
   */
  datatype InitMsg = InitMsg(
    name: string,
    symbol: string,
    decimals: Uint8,
    initialBalances: seq<InitialBalance>,
    minter: Option<MinterMsg>,
    cap: Option<Uint128>)

  /** The supply cap of the message: the minter's cap, and none when there is no minter. */
  function GetCap(msg: InitMsg): (cap: Option<Uint128>)
    ensures msg.minter.None? ==> cap.None?
    ensures msg.minter.Some? ==> cap == msg.minter.value.cap
  {
    match msg.minter
    case Some(m) => m.cap
    case None => None
  }

  /** Token-info check: fails exactly when there are more than 18 decimals. */
  function Validate(msg: InitMsg): (r: Result<(), StdError>)
    ensures r.Err? <==> msg.decimals > MAX_DECIMALS
    ensures r.Err? ==> r.error == GenericErr(DECIMALS_ERROR)
  {
    if msg.decimals > MAX_DECIMALS then Err(GenericErr(DECIMALS_ERROR)) else Ok(())
  }
}
