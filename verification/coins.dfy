/**
 * The `Coin` record of the vending-machine examples (typed/examples/VendingMachineAlt.java,
 * typed/examples/VendingMachine.java and TypedActor.java's DemoVending), whose
 * compact constructor is meant to refuse amounts outside 1..100 with an
 * AssertionError.
 */
module Coins {
  import opened Algebra

  datatype Coin = Coin(amount: int)

  /** The amounts a coin is meant to carry. */
  predicate Valid(c: Coin)
  {
    1 <= c.amount <= 100
  }

  /**
   * `new Coin(amount)` as written: the guard `amount < 1 && amount > 100` can
   * never hold, so the AssertionError is never thrown (`None` would stand for it).
   */
  function NewCoinAsWritten(amount: int): (r: Option<Coin>)
    ensures r == Some(Coin(amount))
  {
    if amount < 1 && amount > 100 then None else Some(Coin(amount))
  }

  /** Every amount makes a coin: zero, negative and oversized ones included. */
  lemma AsWrittenAdmitsAnyAmount()
    ensures forall amount :: NewCoinAsWritten(amount).Some?
    ensures NewCoinAsWritten(0).Some? && NewCoinAsWritten(-5).Some? && NewCoinAsWritten(250).Some?
    ensures exists amount :: NewCoinAsWritten(amount).Some? && !Valid(NewCoinAsWritten(amount).value)
  {
    assert NewCoinAsWritten(0).Some? && !Valid(NewCoinAsWritten(0).value);
  }

  /** `new Coin(amount)` with the guard `amount < 1 || amount > 100`: exactly the valid coins are made. */
  function NewCoin(amount: int): (r: Option<Coin>)
    ensures r.Some? <==> 1 <= amount <= 100
    ensures r.Some? ==> r.value.amount == amount && Valid(r.value)
  {
    if amount < 1 || amount > 100 then None else Some(Coin(amount))
  }

  /** The total of a sequence of coins. */
  function Sum(coins: seq<Coin>): int
  {
    if coins == [] then 0 else coins[0].amount + Sum(coins[1..])
  }

  /**
   * Paying `coins` one by one on top of `acc`, every coin but the last leaves
   * the running total below `limit`.
   */
  predicate BelowUntilLast(acc: int, coins: seq<Coin>, limit: int)
    decreases |coins|
  {
    |coins| <= 1 || (acc + coins[0].amount < limit && BelowUntilLast(acc + coins[0].amount, coins[1..], limit))
  }

  /** The same condition on prefix sums: every proper, non-empty prefix keeps `acc` plus its sum below `limit`. */
  lemma {:induction false} BelowUntilLastPrefixes(acc: int, coins: seq<Coin>, limit: int)
    ensures BelowUntilLast(acc, coins, limit) <==> forall i :: 1 <= i < |coins| ==> acc + Sum(coins[..i]) < limit
    decreases |coins|
  {
    if |coins| > 1 {
      var c, rest := coins[0], coins[1..];
      BelowUntilLastPrefixes(acc + c.amount, rest, limit);
      forall i | 1 <= i < |coins|
        ensures Sum(coins[..i]) == c.amount + Sum(rest[..i - 1])
      {
        assert coins[..i][1..] == rest[..i - 1];
      }
      assert rest[..0] == [];
      if acc + c.amount >= limit {
        assert acc + Sum(coins[..1]) >= limit;
      } else if !BelowUntilLast(acc + c.amount, rest, limit) {
        var j :| 1 <= j < |rest| && acc + c.amount + Sum(rest[..j]) >= limit;
        assert acc + Sum(coins[..j + 1]) >= limit;
      } else {
        forall i | 1 <= i < |coins|
          ensures acc + Sum(coins[..i]) < limit
        {
          if i > 1 {
            assert acc + c.amount + Sum(rest[..i - 1]) < limit;
          }
        }
      }
    }
  }

  /** Adding one more coin adds its amount: `Sum`, defined from the front, seen from the back. */
  lemma {:induction false} SumSnoc(coins: seq<Coin>, c: Coin)
    ensures Sum(coins + [c]) == Sum(coins) + c.amount
    decreases |coins|
  {
    if coins == [] {
      assert [] + [c] == [c];
    } else {
      assert (coins + [c])[1..] == coins[1..] + [c];
      SumSnoc(coins[1..], c);
    }
  }
}
