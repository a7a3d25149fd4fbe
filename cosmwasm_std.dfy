/**
 * The parts of the host library the ledger relies on: account addresses,
 * the fixed-width integers `u8` and `Uint128`, the checked addition that
 * `Uint128`'s `+` performs, its decimal rendering, and the library error.
 */
module CosmwasmStd {
  import opened Wrappers

  /** A validated account address. Validation itself is a host call and is a parameter of the operations. */
  type Addr = string

  /** 2^128: one more than the largest `Uint128`. */
  const UINT128_LIMIT: nat := 0x1_0000_0000_0000_0000_0000_0000_0000_0000

  type Uint128 = x: nat | x < UINT128_LIMIT

  type Uint8 = x: nat | x < 256

  /** Library errors: a generic message, or an address the host refused. */
  datatype StdError = GenericErr(msg: string) | InvalidAddress(addr: string)

  /**
   * `Uint128`'s `+` and `+=`: the exact sum when it fits, otherwise `None`
   * (the source panics, which aborts the whole call). It never wraps.
   */
  function CheckedAdd(a: Uint128, b: Uint128): (r: Option<Uint128>)
    ensures r.Some? <==> a + b < UINT128_LIMIT
    ensures r.Some? ==> r.value == a + b && a <= r.value && b <= r.value
  {
    if a + b < UINT128_LIMIT then Some(a + b) else None
  }

  predicate IsDigit(c: char) {
    '0' <= c <= '9'
  }

  predicate IsDigits(s: string) {
    forall i :: 0 <= i < |s| ==> IsDigit(s[i])
  }

  function DigitChar(d: nat): (c: char)
    requires d < 10
    ensures IsDigit(c)
  {
    (48 + d) as char
  }

  /**
   * The decimal text of an amount, as `Uint128`'s `Display` writes it:
   * at least one digit, and no leading zero unless the amount is zero.
   */
  function ToDecimal(n: nat): (s: string)
    ensures |s| >= 1 && IsDigits(s)
    ensures s[0] == '0' ==> n == 0
    decreases n
  {
    if n < 10 then [DigitChar(n)] else ToDecimal(n / 10) + [DigitChar(n % 10)]
  }

  /** The number a string of decimal digits denotes. */
  function DigitsValue(s: string): nat
    requires IsDigits(s)
    decreases |s|
  {
    if s == [] then 0 else 10 * DigitsValue(s[..|s| - 1]) + (s[|s| - 1] as int - 48)
  }

  /** Reading back the rendered amount gives the amount: the attribute text loses nothing. */
  lemma {:induction false} DecimalRoundTrip(n: nat)
    ensures DigitsValue(ToDecimal(n)) == n
    decreases n
  {
    if n >= 10 {
      DecimalRoundTrip(n / 10);
      var s := ToDecimal(n);
      assert s[..|s| - 1] == ToDecimal(n / 10);
    }
  }

  /** Distinct amounts render as distinct texts. */
  lemma ToDecimalInjective(m: nat, n: nat)
    requires m != n
    ensures ToDecimal(m) != ToDecimal(n)
  {
    DecimalRoundTrip(m);
    DecimalRoundTrip(n);
  }
}
