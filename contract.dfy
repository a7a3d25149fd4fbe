/**
 * The token contract: instantiation seeds the balances from the initial
 * distribution and stores the token info; mint lets the single configured
 * minter raise the supply, up to the cap, crediting a recipient.
 */
module Contract {
  import opened Wrappers
  import opened CosmwasmStd
  import opened Errors
  import opened Msg
  import opened Balances

  const CAP_ERROR: string := "Initial supply greater than cap"

  /** The configured minter and its optional cap on the total supply. */
  datatype MinterData = MinterData(minter: Addr, cap: Option<Uint128>)

  /** The stored token record. */
  datatype TokenInfo = TokenInfo(
    name: string,
    symbol: string,
    decimals: Uint8,
    totalSupply: Uint128,
    mint: Option<MinterData>)
  {
    /** The supply cap: the minter's cap, none without a minter. */
    function GetCap(): (cap: Option<Uint128>)
      ensures mint.None? ==> cap.None?
      ensures mint.Some? ==> cap == mint.value.cap
    {
      match mint
      case Some(m) => m.cap
      case None => None
    }
  }

  datatype Attribute = Attribute(key: string, value: string)

  /** The response of a successful call: its log attributes, in order. */
  datatype Response = Response(attributes: seq<Attribute>)

  /** The minter record that instantiation stores for a message. */
  function MinterOf(msg: InitMsg): (mint: Option<MinterData>)
    ensures mint.Some? <==> msg.minter.Some?
    ensures mint.Some? ==> mint.value.minter == msg.minter.value.minter
    ensures forall name, symbol, decimals, supply ::
              TokenInfo(name, symbol, decimals, supply, mint).GetCap() == GetCap(msg)
  {
    match msg.minter
    case Some(m) => Some(MinterData(m.minter, m.cap))
    case None => None
  }

  /**
   * True when `sender` is the minter recorded in `info`: a stored record
   * with a minter is needed.
   */
  predicate IsMinter(info: Option<TokenInfo>, sender: Addr): (b: bool)
    ensures b ==> info.Some? && info.value.mint.Some?
  {
    info.Some? && info.value.mint.Some? && info.value.mint.value.minter == sender
  }

  /** At most one address is authorised to mint. */
  lemma MinterIsUnique(info: Option<TokenInfo>, s1: Addr, s2: Addr)
    requires IsMinter(info, s1) && IsMinter(info, s2)
    ensures s1 == s2
  {
  }

  /**
   * The attributes a successful mint logs: the action, the recipient and
   * the amount, in that order, the amount as decimal text that reads back
   * as the amount.
   */
  function MintAttributes(recipient: string, amount: Uint128): (attrs: seq<Attribute>)
    ensures |attrs| == 3
    ensures attrs[0] == Attribute("action", "mint")
    ensures attrs[1].key == "to" && attrs[1].value == recipient
    ensures attrs[2].key == "amount" && IsDigits(attrs[2].value) && DigitsValue(attrs[2].value) == amount
  {
    DecimalRoundTrip(amount);
    [Attribute("action", "mint"), Attribute("to", recipient), Attribute("amount", ToDecimal(amount))]
  }

  // ---------------------------------------------------------------------------
  // Seeding the initial distribution

  /** The balances written so far and the running total supply. */
  datatype Seeded = Seeded(balances: Ledger, totalSupply: Uint128)

  /**
   * The initial distribution applied left to right from `acc`: each row's
   * address is validated, its amount is written over any earlier balance,
   * and the amount is added to the running total, which must stay a `Uint128`.
   */
  function SeedFrom(acc: Seeded, rows: seq<InitialBalance>, addrValid: Addr -> bool): (r: Result<Seeded, ContractError>)
    ensures r.Ok? ==> acc.totalSupply <= r.value.totalSupply
    ensures r.Ok? ==> acc.balances.Keys <= r.value.balances.Keys
    ensures r.Err? ==> r.error == Overflow || (r.error.Std? && r.error.err.InvalidAddress?)
    decreases |rows|
  {
    if rows == [] then Ok(acc)
    else
      var row := rows[0];
      if !addrValid(row.address) then Err(Std(InvalidAddress(row.address)))
      else
        match CheckedAdd(acc.totalSupply, row.amount)
        case None => Err(Overflow)
        case Some(total) => SeedFrom(Seeded(acc.balances[row.address := row.amount], total), rows[1..], addrValid)
  }

  /** The sum of the amounts of a distribution. */
  function SumAmounts(rows: seq<InitialBalance>): nat {
    if rows == [] then 0 else rows[0].amount + SumAmounts(rows[1..])
  }

  /** The set of addresses a distribution names. */
  function Addresses(rows: seq<InitialBalance>): set<Addr> {
    set i | 0 <= i < |rows| :: rows[i].address
  }

  predicate AllValid(rows: seq<InitialBalance>, addrValid: Addr -> bool) {
    forall i :: 0 <= i < |rows| ==> addrValid(rows[i].address)
  }

  predicate DistinctAddresses(rows: seq<InitialBalance>) {
    forall i, j :: 0 <= i < j < |rows| ==> rows[i].address != rows[j].address
  }

  /** Row `i` is the last row of the distribution that names `a`. */
  predicate LastOccurrence(rows: seq<InitialBalance>, i: int, a: Addr) {
    0 <= i < |rows| && rows[i].address == a &&
    forall j :: i < j < |rows| ==> rows[j].address != a
  }

  /**
   * Seeding succeeds exactly when every address is valid and the total
   * fits a `Uint128` (amounts are non-negative, so the final sum fitting
   * is the same as every intermediate sum fitting); the total it returns
   * is the sum of the amounts; with every address valid it can only fail
   * by overflow.
   */
  lemma {:induction false} SeedOutcome(acc: Seeded, rows: seq<InitialBalance>, addrValid: Addr -> bool)
    ensures SeedFrom(acc, rows, addrValid).Ok? <==>
              AllValid(rows, addrValid) && acc.totalSupply + SumAmounts(rows) < UINT128_LIMIT
    ensures SeedFrom(acc, rows, addrValid).Ok? ==>
              SeedFrom(acc, rows, addrValid).value.totalSupply == acc.totalSupply + SumAmounts(rows)
    ensures SeedFrom(acc, rows, addrValid).Err? && AllValid(rows, addrValid) ==>
              SeedFrom(acc, rows, addrValid).error == Overflow
    decreases |rows|
  {
    if rows != [] {
      var row := rows[0];
      assert AllValid(rows, addrValid) <==> addrValid(row.address) && AllValid(rows[1..], addrValid) by {
        if addrValid(row.address) && AllValid(rows[1..], addrValid) {
          forall i | 0 <= i < |rows| ensures addrValid(rows[i].address) {
            if i > 0 { assert rows[i] == rows[1..][i - 1]; }
          }
        }
        if AllValid(rows, addrValid) {
          forall i | 0 <= i < |rows[1..]| ensures addrValid(rows[1..][i].address) {
            assert rows[1..][i] == rows[i + 1];
          }
        }
      }
      if addrValid(row.address) && acc.totalSupply + row.amount < UINT128_LIMIT {
        SeedOutcome(Seeded(acc.balances[row.address := row.amount], acc.totalSupply + row.amount), rows[1..], addrValid);
      }
    }
  }

  /**
   * When the running total fits but seeding fails, the error names the
   * first row whose address the host refuses.
   */
  lemma {:induction false} SeedFirstInvalidAddress(acc: Seeded, rows: seq<InitialBalance>, addrValid: Addr -> bool)
    requires SeedFrom(acc, rows, addrValid).Err?
    requires acc.totalSupply + SumAmounts(rows) < UINT128_LIMIT
    ensures exists i :: 0 <= i < |rows| && !addrValid(rows[i].address) &&
              (forall j :: 0 <= j < i ==> addrValid(rows[j].address)) &&
              SeedFrom(acc, rows, addrValid).error == Std(InvalidAddress(rows[i].address))
    decreases |rows|
  {
    var row := rows[0];
    if addrValid(row.address) {
      var next := Seeded(acc.balances[row.address := row.amount], acc.totalSupply + row.amount);
      SeedFirstInvalidAddress(next, rows[1..], addrValid);
      var k :| 0 <= k < |rows[1..]| && !addrValid(rows[1..][k].address) &&
                (forall j :: 0 <= j < k ==> addrValid(rows[1..][j].address)) &&
                SeedFrom(next, rows[1..], addrValid).error == Std(InvalidAddress(rows[1..][k].address));
      assert forall j :: 0 < j < k + 1 ==> rows[j] == rows[1..][j - 1];
      assert rows[k + 1] == rows[1..][k];
    }
  }

  /**
   * After seeding, every listed address holds the amount of its last row,
   * every other address keeps its earlier balance, and no other entry appears.
   */
  lemma {:induction false} SeedBalances(acc: Seeded, rows: seq<InitialBalance>, addrValid: Addr -> bool)
    requires SeedFrom(acc, rows, addrValid).Ok?
    ensures var b := SeedFrom(acc, rows, addrValid).value.balances;
            b.Keys == acc.balances.Keys + Addresses(rows) &&
            (forall a :: a in Addresses(rows) ==>
               exists i :: LastOccurrence(rows, i, a) && b[a] == rows[i].amount) &&
            (forall a :: a in acc.balances && a !in Addresses(rows) ==> b[a] == acc.balances[a])
    decreases |rows|
  {
    if rows != [] {
      var row := rows[0];
      var next := Seeded(acc.balances[row.address := row.amount], acc.totalSupply + row.amount);
      SeedBalances(next, rows[1..], addrValid);
      var b := SeedFrom(acc, rows, addrValid).value.balances;
      assert b == SeedFrom(next, rows[1..], addrValid).value.balances;
      assert Addresses(rows) == {row.address} + Addresses(rows[1..]) by {
        forall a | a in Addresses(rows) ensures a in {row.address} + Addresses(rows[1..]) {
          var i :| 0 <= i < |rows| && rows[i].address == a;
          if i > 0 { assert rows[1..][i - 1] == rows[i]; }
        }
        forall a | a in Addresses(rows[1..]) ensures a in Addresses(rows) {
          var i :| 0 <= i < |rows[1..]| && rows[1..][i].address == a;
          assert rows[i + 1] == rows[1..][i];
        }
      }
      forall a | a in Addresses(rows)
        ensures exists i :: LastOccurrence(rows, i, a) && b[a] == rows[i].amount
      {
        if a in Addresses(rows[1..]) {
          var k :| LastOccurrence(rows[1..], k, a) && b[a] == rows[1..][k].amount;
          assert forall j :: k + 1 < j < |rows| ==> rows[j] == rows[1..][j - 1];
          assert LastOccurrence(rows, k + 1, a);
        } else {
          assert a == row.address;
          forall j | 0 < j < |rows| ensures rows[j].address != a {
            assert rows[j] == rows[1..][j - 1];
          }
          assert LastOccurrence(rows, 0, a);
        }
      }
    }
  }

  /**
   * With distinct addresses, none of them already in the ledger, seeding
   * keeps "sum of balances == total supply".
   */
  lemma {:induction false} SeedConserves(acc: Seeded, rows: seq<InitialBalance>, addrValid: Addr -> bool)
    requires SeedFrom(acc, rows, addrValid).Ok?
    requires DistinctAddresses(rows)
    requires Addresses(rows) !! acc.balances.Keys
    requires SumValues(acc.balances) == acc.totalSupply
    ensures SumValues(SeedFrom(acc, rows, addrValid).value.balances) ==
            SeedFrom(acc, rows, addrValid).value.totalSupply
    decreases |rows|
  {
    if rows != [] {
      var row := rows[0];
      assert row.address in Addresses(rows);
      var next := Seeded(acc.balances[row.address := row.amount], acc.totalSupply + row.amount);
      SumValuesAdd(acc.balances, row.address, row.amount);
      forall a | a in Addresses(rows[1..]) ensures a in Addresses(rows) && a != row.address {
        var i :| 0 <= i < |rows[1..]| && rows[1..][i].address == a;
        assert rows[i + 1] == rows[1..][i];
      }
      assert DistinctAddresses(rows[1..]) by {
        forall i, j | 0 <= i < j < |rows[1..]| ensures rows[1..][i].address != rows[1..][j].address {
          assert rows[1..][i] == rows[i + 1] && rows[1..][j] == rows[j + 1];
        }
      }
      SeedConserves(next, rows[1..], addrValid);
    }
  }

  /**
   * Each row overwrites the earlier balance of its address, so the total
   * supply runs ahead of the sum of balances by everything overwritten:
   * the shortfall never shrinks.
   */
  lemma {:induction false} SeedShortfallGrows(acc: Seeded, rows: seq<InitialBalance>, addrValid: Addr -> bool)
    requires SeedFrom(acc, rows, addrValid).Ok?
    ensures var s := SeedFrom(acc, rows, addrValid).value;
            s.totalSupply - SumValues(s.balances) >= acc.totalSupply - SumValues(acc.balances)
    decreases |rows|
  {
    if rows != [] {
      var row := rows[0];
      SumValuesOverwrite(acc.balances, row.address, row.amount);
      SeedShortfallGrows(Seeded(acc.balances[row.address := row.amount], acc.totalSupply + row.amount), rows[1..], addrValid);
    }
  }

  /**
   * A positive balance that a later row overwrites makes the shortfall
   * grow strictly.
   */
  lemma {:induction false} SeedShortfallGrowsStrictly(acc: Seeded, rows: seq<InitialBalance>, addrValid: Addr -> bool, a: Addr)
    requires SeedFrom(acc, rows, addrValid).Ok?
    requires a in acc.balances && acc.balances[a] > 0
    requires a in Addresses(rows)
    ensures var s := SeedFrom(acc, rows, addrValid).value;
            s.totalSupply - SumValues(s.balances) > acc.totalSupply - SumValues(acc.balances)
    decreases |rows|
  {
    var row := rows[0];
    var next := Seeded(acc.balances[row.address := row.amount], acc.totalSupply + row.amount);
    SumValuesOverwrite(acc.balances, row.address, row.amount);
    if row.address == a {
      SeedShortfallGrows(next, rows[1..], addrValid);
    } else {
      var i :| 0 <= i < |rows| && rows[i].address == a;
      assert rows[1..][i - 1] == rows[i];
      SeedShortfallGrowsStrictly(next, rows[1..], addrValid, a);
    }
  }

  /**
   * A distribution that names an address at row `i` with a positive amount
   * and again at a later row `j` seeds balances that sum to less than the
   * total supply: the overwritten amount is counted in the total only.
   */
  lemma {:induction false} SeedShortfallFromDuplicate(acc: Seeded, rows: seq<InitialBalance>, addrValid: Addr -> bool, i: nat, j: nat)
    requires SeedFrom(acc, rows, addrValid).Ok?
    requires i < j < |rows| && rows[i].address == rows[j].address && rows[i].amount > 0
    ensures var s := SeedFrom(acc, rows, addrValid).value;
            s.totalSupply - SumValues(s.balances) > acc.totalSupply - SumValues(acc.balances)
    decreases |rows|
  {
    var row := rows[0];
    var next := Seeded(acc.balances[row.address := row.amount], acc.totalSupply + row.amount);
    SumValuesOverwrite(acc.balances, row.address, row.amount);
    assert rows[1..][j - 1] == rows[j];
    if i == 0 {
      SeedShortfallGrowsStrictly(next, rows[1..], addrValid, row.address);
    } else {
      assert rows[1..][i - 1] == rows[i];
      SeedShortfallFromDuplicate(next, rows[1..], addrValid, i - 1, j - 1);
    }
  }

  /**
   * Seeding fresh storage never leaves more in the balances than the total
   * supply, and a repeated address whose earlier amount is positive leaves
   * strictly less: the conservation invariant is lost.
   */
  lemma DuplicateBreaksConservation(rows: seq<InitialBalance>, addrValid: Addr -> bool)
    requires SeedFrom(Seeded(map[], 0), rows, addrValid).Ok?
    ensures var s := SeedFrom(Seeded(map[], 0), rows, addrValid).value;
            SumValues(s.balances) <= s.totalSupply &&
            ((exists i, j :: 0 <= i < j < |rows| && rows[i].address == rows[j].address && rows[i].amount > 0) ==>
               SumValues(s.balances) < s.totalSupply)
  {
    assert SumValues(map[]) == 0;
    SeedShortfallGrows(Seeded(map[], 0), rows, addrValid);
    if exists i, j :: 0 <= i < j < |rows| && rows[i].address == rows[j].address && rows[i].amount > 0 {
      var i, j :| 0 <= i < j < |rows| && rows[i].address == rows[j].address && rows[i].amount > 0;
      SeedShortfallFromDuplicate(Seeded(map[], 0), rows, addrValid, i, j);
    }
  }

  // ---------------------------------------------------------------------------
  // The contract's storage and entry points

  /** The contract's storage: the `BALANCES` map and the `TOKEN_INFO` item. */
  class Cw20Contract {
    var balances: Ledger
    var tokenInfo: Option<TokenInfo>

    /**
     * The ledger invariant: before instantiation nothing is stored;
     * afterwards decimals are at most 18, the balances sum to the total
     * supply, and the total supply is within the cap.
     */
    ghost predicate Valid()
      reads this
    {
      match tokenInfo
      case None => balances == map[]
      case Some(info) =>
        info.decimals <= MAX_DECIMALS &&
        SumValues(balances) == info.totalSupply &&
        (info.GetCap().Some? ==> info.totalSupply <= info.GetCap().value)
    }

    /** Fresh, empty storage. */
    constructor ()
      ensures balances == map[] && tokenInfo == None
      ensures Valid()
    {
      balances := map[];
      tokenInfo := None;
    }

    /**
     * Writes the initial distribution into `balances` and returns the
     * total supply. On an error the balances written so far stay behind;
     * the caller's transaction discards them.
     */
    method CreateAccounts(accounts: seq<InitialBalance>, addrValid: Addr -> bool)
      returns (r: Result<Uint128, ContractError>)
      modifies this`balances
      ensures var seeded := SeedFrom(Seeded(old(balances), 0), accounts, addrValid);
              (r.Ok? <==> seeded.Ok?) &&
              (r.Ok? ==> r.value == seeded.value.totalSupply && balances == seeded.value.balances) &&
              (r.Err? ==> r.error == seeded.error)
    {
      var totalSupply: Uint128 := 0;
      var i := 0;
      while i < |accounts|
        invariant 0 <= i <= |accounts|
        invariant SeedFrom(Seeded(old(balances), 0), accounts, addrValid) ==
                  SeedFrom(Seeded(balances, totalSupply), accounts[i..], addrValid)
      {
        var row := accounts[i];
        assert accounts[i..][1..] == accounts[i + 1..];
        if !addrValid(row.address) {
          return Err(Std(InvalidAddress(row.address)));
        }
        balances := balances[row.address := row.amount];
        var sum := CheckedAdd(totalSupply, row.amount);
        if sum.None? {
          return Err(Overflow);
        }
        totalSupply := sum.value;
        i := i + 1;
      }
      return Ok(totalSupply);
    }

    /**
     * `instantiate`: checks decimals, seeds the balances, rejects a total
     * over the cap, validates the minter and stores the token info. Any
     * error leaves the storage as it was, because the host rolls the whole
     * call back.
     */
    method Instantiate(msg: InitMsg, addrValid: Addr -> bool) returns (r: Result<(), ContractError>)
      modifies this
      ensures r.Err? ==> balances == old(balances) && tokenInfo == old(tokenInfo)
      ensures msg.decimals > MAX_DECIMALS ==> r == Err(Std(GenericErr(DECIMALS_ERROR)))
      ensures msg.decimals <= MAX_DECIMALS ==>
                var seeded := SeedFrom(Seeded(old(balances), 0), msg.initialBalances, addrValid);
                if seeded.Err? then r == Err(seeded.error)
                else if GetCap(msg).Some? && seeded.value.totalSupply > GetCap(msg).value then
                  r == Err(Std(GenericErr(CAP_ERROR)))
                else if msg.minter.Some? && !addrValid(msg.minter.value.minter) then
                  r == Err(Std(InvalidAddress(msg.minter.value.minter)))
                else
                  r.Ok? && balances == seeded.value.balances &&
                  tokenInfo == Some(TokenInfo(msg.name, msg.symbol, msg.decimals, seeded.value.totalSupply, MinterOf(msg)))
      ensures r.Ok? && old(balances) == map[] && DistinctAddresses(msg.initialBalances) ==> Valid()
    {
      var saved := balances;
      var checked := Validate(msg);
      if checked.Err? {
        return Err(Std(checked.error));
      }
      var created := CreateAccounts(msg.initialBalances, addrValid);
      if created.Err? {
        balances := saved;
        return Err(created.error);
      }
      var totalSupply := created.value;
      var cap := GetCap(msg);
      if cap.Some? && totalSupply > cap.value {
        balances := saved;
        return Err(Std(GenericErr(CAP_ERROR)));
      }
      var mint: Option<MinterData> := None;
      if msg.minter.Some? {
        var m := msg.minter.value;
        if !addrValid(m.minter) {
          balances := saved;
          return Err(Std(InvalidAddress(m.minter)));
        }
        mint := Some(MinterData(m.minter, m.cap));
      }
      tokenInfo := Some(TokenInfo(msg.name, msg.symbol, msg.decimals, totalSupply, mint));
      r := Ok(());
      if saved == map[] && DistinctAddresses(msg.initialBalances) {
        SeedConserves(Seeded(saved, 0), msg.initialBalances, addrValid);
      }
    }

    /**
     * `execute_mint`: only the stored minter may mint; the supply rises by
     * `amount` within the cap and the recipient is credited. Any error
     * leaves the storage as it was.
     */
    method ExecuteMint(sender: Addr, recipient: string, amount: Uint128, addrValid: Addr -> bool)
      returns (r: Result<Response, ContractError>)
      modifies this
      ensures r.Err? ==> balances == old(balances) && tokenInfo == old(tokenInfo)
      ensures !IsMinter(old(tokenInfo), sender) ==> r == Err(Unauthorized)
      ensures IsMinter(old(tokenInfo), sender) ==>
                var info := old(tokenInfo).value;
                var cap := info.GetCap();
                if info.totalSupply + amount >= UINT128_LIMIT then r == Err(Overflow)
                else if cap.Some? && info.totalSupply + amount > cap.value then r == Err(CannotExceedCap)
                else if !addrValid(recipient) then r == Err(Std(InvalidAddress(recipient)))
                else if Get(old(balances), recipient) + amount >= UINT128_LIMIT then r == Err(Overflow)
                else
                  r.Ok? &&
                  tokenInfo == Some(info.(totalSupply := info.totalSupply + amount)) &&
                  balances == Credit(old(balances), recipient, amount) &&
                  r.value.attributes == MintAttributes(recipient, amount)
      ensures r.Ok? && tokenInfo.value.GetCap().Some? ==> tokenInfo.value.totalSupply <= tokenInfo.value.GetCap().value
      ensures old(Valid()) ==> Valid()
      ensures old(Valid()) && IsMinter(old(tokenInfo), sender) && addrValid(recipient) &&
              old(tokenInfo).value.totalSupply + amount < UINT128_LIMIT &&
              (old(tokenInfo).value.GetCap().Some? ==> old(tokenInfo).value.totalSupply + amount <= old(tokenInfo).value.GetCap().value)
              ==> r.Ok?
    {
      if tokenInfo.None? {
        return Err(Unauthorized);
      }
      var config := tokenInfo.value;
      if config.mint.None? || config.mint.value.minter != sender {
        return Err(Unauthorized);
      }
      var newSupply := CheckedAdd(config.totalSupply, amount);
      if newSupply.None? {
        return Err(Overflow);
      }
      config := config.(totalSupply := newSupply.value);
      var cap := config.GetCap();
      if cap.Some? && config.totalSupply > cap.value {
        return Err(CannotExceedCap);
      }
      var savedInfo := tokenInfo;
      tokenInfo := Some(config);
      if !addrValid(recipient) {
        tokenInfo := savedInfo;
        return Err(Std(InvalidAddress(recipient)));
      }
      var newBalance := CheckedAdd(Get(balances, recipient), amount);
      if newBalance.None? {
        tokenInfo := savedInfo;
        BalanceAtMostSum(balances, recipient);
        return Err(Overflow);
      }
      ghost var before := balances;
      balances := balances[recipient := newBalance.value];
      r := Ok(Response(MintAttributes(recipient, amount)));
      SumValuesCredit(before, recipient, amount);
    }
  }
}
