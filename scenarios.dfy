/**
 * A client of the contract: the "Cash" token instantiated with one
 * holder and a capped minter, then minted to, twice, and attacked.
 * Every expected outcome follows from the entry points' contracts alone.
 */
module Scenarios {
  import opened Wrappers
  import opened CosmwasmStd
  import opened Errors
  import opened Msg
  import opened Balances
  import opened Contract

  /** A stand-in for the host's address check: any non-empty text is an address. */
  predicate NonEmptyAddr(a: Addr) {
    a != ""
  }

  method CashScenario() {
    var contract := new Cw20Contract();
    var msg := InitMsg("Cash", "CASH", 9, [InitialBalance("addr1", 11223344)],
                       Some(MinterMsg("asmodat", Some(511223344))), None);
    var init := contract.Instantiate(msg, NonEmptyAddr);
    assert init.Ok?;
    assert Get(contract.balances, "addr1") == 11223344;
    assert contract.tokenInfo.value.totalSupply == 11223344;
    assert contract.tokenInfo.value.mint == Some(MinterData("asmodat", Some(511223344)));
    assert contract.Valid();

    var minted := contract.ExecuteMint("asmodat", "addr2", 1000, NonEmptyAddr);
    assert minted.Ok?;
    assert Get(contract.balances, "addr2") == 1000;
    assert contract.tokenInfo.value.totalSupply == 11224344;

    // the same mint again accumulates rather than collapsing into one
    minted := contract.ExecuteMint("asmodat", "addr2", 1000, NonEmptyAddr);
    assert minted.Ok?;
    assert Get(contract.balances, "addr2") == 2000;
    assert contract.tokenInfo.value.totalSupply == 11225344;

    var attack := contract.ExecuteMint("attacker", "addr2", 1, NonEmptyAddr);
    assert attack == Err(Unauthorized);
    assert Get(contract.balances, "addr2") == 2000;
    assert contract.tokenInfo.value.totalSupply == 11225344;

    var overCap := contract.ExecuteMint("asmodat", "addr3", 500000000, NonEmptyAddr);
    assert overCap == Err(CannotExceedCap);
    assert "addr3" !in contract.balances;
  }

  /** Nineteen decimals are refused and nothing is stored; eighteen pass. */
  method DecimalsScenario() {
    var contract := new Cw20Contract();
    var tooPrecise := InitMsg("Cash", "CASH", 19, [], None, None);
    var r := contract.Instantiate(tooPrecise, NonEmptyAddr);
    assert r == Err(Std(GenericErr(DECIMALS_ERROR)));
    assert contract.tokenInfo == None;

    var exact := InitMsg("Cash", "CASH", 18, [], None, None);
    r := contract.Instantiate(exact, NonEmptyAddr);
    assert r.Ok?;
    assert contract.tokenInfo.value.mint == None;
  }
}
