/** The record types shared by the billing pipeline. */
module Models {

  datatype Option<+T> = None | Some(value: T)

  datatype Result<+T> = Ok(value: T) | Err

  function Lookup<K, V>(rows: map<K, V>, key: K): Option<V> {
    if key in rows then Some(rows[key]) else None
  }

  /** BigDecimal and Postgres DECIMAL are exact, so money is a real. */
  type Money = real

  const I64_MIN: int := -0x8000_0000_0000_0000
  const I64_MAX: int := 0x7fff_ffff_ffff_ffff

  predicate InI64(x: int) {
    I64_MIN <= x <= I64_MAX
  }

  /** Two's complement wrap-around of an `i64` (release builds, `as i64` casts). */
  function WrapI64(x: int): (r: int)
    ensures InI64(r)
    ensures InI64(x) ==> r == x
    ensures (r - x) % 0x1_0000_0000_0000_0000 == 0
  {
    (x - I64_MIN) % 0x1_0000_0000_0000_0000 + I64_MIN
  }

  /** `i64 + i64` in a release build. */
  function AddI64(x: int, y: int): int {
    var sum := x + y;
    if sum > I64_MAX then sum - 0x1_0000_0000_0000_0000
    else if sum < I64_MIN then sum + 0x1_0000_0000_0000_0000
    else sum
  }

  lemma AddI64Wraps(x: int, y: int)
    requires InI64(x) && InI64(y)
    ensures AddI64(x, y) == WrapI64(x + y)
  {
  }

  /** One row per account: the unique index on `account_id` makes it the map key. */
  datatype Wallet = Wallet(balance: Money, updatedAt: int)

  datatype SpendToken = SpendToken(
    inputTokens: int,
    inputTokenPrice: Money,
    inputSpendAmount: Money,
    outputTokens: int,
    outputTokenPrice: Money,
    outputSpendAmount: Money,
    totalTokens: int,
    eventId: int)

  datatype Content =
    | Spend(spend: SpendToken)
    | Deposit(amount: Money)
    | Withdraw(amount: Money)
    | AddCredit(amount: Money)

  datatype BalanceChange = BalanceChange(
    accountId: int,
    uniqueRequestId: string,
    content: Content,
    isApplied: bool,
    subscriptionId: int)

  datatype SubscriptionStatus = Pending | Active | Deactive

  /** `startAt` and `endAt` are nullable columns; a comparison with NULL is not true. */
  datatype Subscription = Subscription(
    accountId: int,
    status: SubscriptionStatus,
    startAt: Option<int>,
    endAt: Option<int>,
    usedTotalTokens: int,
    totalTokenLimit: int,
    sortOrder: int,
    usedMoney: Money)
}
