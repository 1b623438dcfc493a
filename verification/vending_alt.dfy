/**
 * The single-actor vending machine of typed/examples/VendingMachineAlt.java,
 * which TypedActor.java's DemoVending repeats with closures over the message:
 * `initial` waits for a first coin, `waitCoin(counter)` collects coins until
 * they reach the price of 100, `vend(change)` waits for a choice, then vends
 * it, releases the change and starts over. Every other message is ignored.
 * `vendProduct` and `releaseChange` only print; here they are the actions the
 * machine performs.
 */
module VendingAlt {
  import opened Algebra
  import opened Coins

  const PRICE: int := 100

  datatype Vend = Insert(coin: Coin) | Choice(product: string)

  datatype State = Initial | WaitCoin(counter: int) | Vending(change: int)

  datatype Action = Dispense(product: string) | ReleaseChange(change: int)

  /** The behaviours `initial`, `waitCoin(counter)` and `vend(change)`. */
  function Step(s: State, m: Vend): (r: Reaction<State, Action>)
    ensures r.Handled?
    ensures r.sent != [] <==> s.Vending? && m.Choice?
  {
    match (s, m)
    case (Initial, Insert(c)) => Handled(Become(Live(WaitCoin(c.amount))), [])
    case (WaitCoin(counter), Insert(c)) =>
      if counter + c.amount < PRICE then Handled(Become(Live(WaitCoin(counter + c.amount))), [])
      else Handled(Become(Live(Vending(counter + c.amount - PRICE))), [])
    case (Vending(change), Choice(p)) => Handled(Become(Live(Initial)), [Dispense(p), ReleaseChange(change)])
    case _ => Handled(Stay, [])
  }

  /** `actorOf(VendingMachineAlt::initial)`: a typed actor, so no bootstrap message. */
  function Machine(): (r: Program<Vend, State, Action>)
    ensures forall m :: r.boot(m).None?
    ensures forall s, m :: Apply(r, Live(s), m) == Step(s, m)
  {
    Program((s, m) => Step(s, m), (m: Vend) => None)
  }

  function Inserts(coins: seq<Coin>): seq<Vend>
  {
    if coins == [] then [] else [Insert(coins[0])] + Inserts(coins[1..])
  }

  /** A message the current state does not wait for is ignored. */
  lemma Ignored(s: State, m: Vend)
    requires !(m.Insert? && (s.Initial? || s.WaitCoin?)) && !(m.Choice? && s.Vending?)
    ensures Deliver(Machine(), Live(s), m) == (Live(s), [])
  {
  }

  /**
   * From `waitCoin(counter)`, coins that stay below the price until the last
   * one reach `vend` with the overpaid amount as change, and nothing is vended.
   */
  lemma {:induction false} Collect(counter: int, coins: seq<Coin>)
    requires |coins| >= 1
    requires BelowUntilLast(counter, coins, PRICE)
    requires counter + Sum(coins) >= PRICE
    ensures Replay(Machine(), Live(WaitCoin(counter)), Inserts(coins)) ==
      (Live(Vending(counter + Sum(coins) - PRICE)), [])
    decreases |coins|
  {
    var c, rest := coins[0], coins[1..];
    var none: seq<Action> := [];
    assert Inserts(coins) == [Insert(c)] + Inserts(rest);
    assert none + none == none;
    if rest == [] {
      assert Sum(coins) == c.amount;
      ReplayFirst(Machine(), Live(WaitCoin(counter)), Insert(c), Inserts(rest),
        Live(Vending(counter + c.amount - PRICE)), none, Live(Vending(counter + c.amount - PRICE)), none);
    } else {
      Collect(counter + c.amount, rest);
      ReplayFirst(Machine(), Live(WaitCoin(counter)), Insert(c), Inserts(rest),
        Live(WaitCoin(counter + c.amount)), none, Live(Vending(counter + Sum(coins) - PRICE)), none);
    }
  }

  /**
   * A whole purchase: the first coin always moves to `waitCoin`, whatever its
   * amount; once the coins reach the price, a choice vends the product and
   * releases exactly the overpaid amount, and the machine is back to `initial`.
   */
  lemma {:induction false} Purchase(coins: seq<Coin>, product: string)
    requires |coins| >= 2
    requires BelowUntilLast(coins[0].amount, coins[1..], PRICE)
    requires Sum(coins) >= PRICE
    ensures Replay(Machine(), Live(Initial), Inserts(coins) + [Choice(product)]) ==
      (Live(Initial), [Dispense(product), ReleaseChange(Sum(coins) - PRICE)])
  {
    var c, rest := coins[0], coins[1..];
    var change := Sum(coins) - PRICE;
    var none: seq<Action> := [];
    var receipt := [Dispense(product), ReleaseChange(change)];
    assert Inserts(coins) == [Insert(c)] + Inserts(rest);
    assert none + none == none && none + receipt == receipt;
    Collect(c.amount, rest);
    ReplayFirst(Machine(), Live(Initial), Insert(c), Inserts(rest),
      Live(WaitCoin(c.amount)), none, Live(Vending(change)), none);
    ReplayStep(Machine(), Live(Initial), Inserts(coins), Choice(product),
      Live(Vending(change)), none, Live(Initial), receipt);
  }

  /** The run of `main`: coins of 50, 40 and 30, then "Chocolate", releases a change of 20. */
  lemma DemoRun()
    ensures Replay(Machine(), Live(Initial),
      [Insert(Coin(50)), Insert(Coin(40)), Insert(Coin(30)), Choice("Chocolate")]) ==
      (Live(Initial), [Dispense("Chocolate"), ReleaseChange(20)])
  {
    var coins := [Coin(50), Coin(40), Coin(30)];
    assert coins[1..] == [Coin(40), Coin(30)];
    assert Sum([Coin(30)]) == 30;
    assert Sum([Coin(40), Coin(30)]) == 70;
    assert Sum(coins) == 120;
    Purchase(coins, "Chocolate");
    assert Inserts(coins) + [Choice("Chocolate")] ==
      [Insert(Coin(50)), Insert(Coin(40)), Insert(Coin(30)), Choice("Chocolate")];
  }

  /** Coins that are not valid slip through the constructor as written: 50 then 250 releases 200. */
  lemma OversizedCoinAsWritten()
    ensures NewCoinAsWritten(50).Some? && NewCoinAsWritten(250).Some?
    ensures Replay(Machine(), Live(Initial),
      [Insert(NewCoinAsWritten(50).value), Insert(NewCoinAsWritten(250).value), Choice("Chocolate")]) ==
      (Live(Initial), [Dispense("Chocolate"), ReleaseChange(200)])
  {
    var coins := [Coin(50), Coin(250)];
    assert Sum(coins) == 300;
    Purchase(coins, "Chocolate");
    assert Inserts(coins) + [Choice("Chocolate")] ==
      [Insert(NewCoinAsWritten(50).value), Insert(NewCoinAsWritten(250).value), Choice("Chocolate")];
  }

  /** Messages whose coins the corrected constructor would have made. */
  predicate ValidMessage(m: Vend)
  {
    m.Insert? ==> Valid(m.coin)
  }

  /** The states valid coins can reach: change is never more than one coin. */
  predicate Sane(b: Behavior<State>)
  {
    b.Live? &&
    match b.state
    case Initial => true
    case WaitCoin(counter) => 1 <= counter <= PRICE
    case Vending(change) => 0 <= change <= PRICE
  }

  /** Outputs that come in (product, change) pairs, each change between 0 and the largest coin. */
  predicate Receipts(out: seq<Action>)
  {
    |out| % 2 == 0 &&
    forall i :: 0 <= i < |out| ==>
      (out[i].Dispense? <==> i % 2 == 0) && (out[i].ReleaseChange? ==> 0 <= out[i].change <= PRICE)
  }

  lemma {:induction false} ReceiptsAppend(xs: seq<Action>, ys: seq<Action>)
    requires Receipts(xs) && Receipts(ys)
    ensures Receipts(xs + ys)
  {
    forall i | |xs| <= i < |xs + ys|
      ensures (xs + ys)[i] == ys[i - |xs|]
    {
    }
  }

  /**
   * With valid coins the machine stays sane and every product it vends is
   * followed by a release of change that is never negative and never more
   * than one coin.
   */
  lemma {:induction false} ChangeBounded(b: Behavior<State>, ms: seq<Vend>)
    requires Sane(b)
    requires forall i :: 0 <= i < |ms| ==> ValidMessage(ms[i])
    ensures Sane(Replay(Machine(), b, ms).0)
    ensures Receipts(Replay(Machine(), b, ms).1)
    decreases |ms|
  {
    if ms != [] {
      var prefix := ms[..|ms| - 1];
      ChangeBounded(b, prefix);
      var mid := Replay(Machine(), b, prefix).0;
      var (_, out) := Deliver(Machine(), mid, ms[|ms| - 1]);
      assert Receipts(out);
      ReceiptsAppend(Replay(Machine(), b, prefix).1, out);
    }
  }
}
