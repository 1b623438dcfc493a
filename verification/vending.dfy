/**
 * The two-actor vending machine of typed/examples/VendingMachine.java. The
 * machine collects coins like the single-actor one, but on a choice it hands
 * the product to a second actor, the item picker, releases the change and
 * stays in `vend`; only the picker's `Vended` reply brings it back to
 * `initial`. `vendProduct` and `releaseChange` only print; here they are
 * outputs.
 */
module Vending {
  import opened Algebra
  import opened Coins

  const PRICE: int := 100

  datatype VendMessage = Insert(coin: Coin) | Choice(product: string) | Vended(product: string)

  datatype State = Initial | WaitCoin(accumulator: int) | Vending(total: int)

  datatype Action =
    | Pick(product: string)      // `itemPicker.tell(c)`
    | ReleaseChange(change: int)

  /** The behaviours `initial`, `waitCoin(accumulator)` and `vend(total)`. */
  function Step(s: State, m: VendMessage): (r: Reaction<State, Action>)
    ensures r.Handled?
    ensures r.sent != [] <==> s.Vending? && m.Choice?
  {
    match (s, m)
    case (Initial, Insert(c)) => Handled(Become(Live(WaitCoin(c.amount))), [])
    case (WaitCoin(accumulator), Insert(c)) =>
      if accumulator + c.amount < PRICE then Handled(Become(Live(WaitCoin(accumulator + c.amount))), [])
      else Handled(Become(Live(Vending(accumulator + c.amount))), [])
    case (Vending(total), Choice(p)) => Handled(Stay, [Pick(p), ReleaseChange(total - PRICE)])
    case (Vending(_), Vended(_)) => Handled(Become(Live(Initial)), [])
    case _ => Handled(Stay, [])
  }

  /** `sys.actorOf(self -> initial(self))`. */
  function Machine(): (r: Program<VendMessage, State, Action>)
    ensures forall m :: r.boot(m).None?
    ensures forall s, m :: Apply(r, Live(s), m) == Step(s, m)
  {
    Program((s, m) => Step(s, m), (m: VendMessage) => None)
  }

  /** The item picker keeps no state. */
  datatype Picker = Picker

  datatype PickerAction =
    | Dispense(product: string)    // `vendProduct`
    | Report(reply: VendMessage)   // `vendingMachine.tell(...)`

  /** `itemPicker(message)`: vend the product, report it to the machine, stay. */
  function ItemPicker(s: Picker, product: string): (r: Reaction<Picker, PickerAction>)
    ensures r.Handled? && r.effect == Stay
    ensures r.sent == [Dispense(product), Report(Vended(product))]
  {
    Handled(Stay, [Dispense(product), Report(Vended(product))])
  }

  /** `sys.actorOf(self -> msg -> itemPicker(msg))`; a choice is known by its product. */
  function PickerProgram(): (r: Program<string, Picker, PickerAction>)
    ensures forall product ::
      Deliver(r, Live(Picker), product) == (Live(Picker), [Dispense(product), Report(Vended(product))])
  {
    Program((s, p) => ItemPicker(s, p), (p: string) => None)
  }

  function Inserts(coins: seq<Coin>): seq<VendMessage>
  {
    if coins == [] then [] else [Insert(coins[0])] + Inserts(coins[1..])
  }

  /** A message the current state does not wait for is ignored. */
  lemma Ignored(s: State, m: VendMessage)
    requires !(m.Insert? && (s.Initial? || s.WaitCoin?)) && !(m.Choice? && s.Vending?) && !(m.Vended? && s.Vending?)
    ensures Deliver(Machine(), Live(s), m) == (Live(s), [])
  {
  }

  /**
   * From `waitCoin(accumulator)`, coins that stay below the price until the
   * last one reach `vend` with the whole amount paid, and nothing is sent.
   */
  lemma {:induction false} Collect(accumulator: int, coins: seq<Coin>)
    requires |coins| >= 1
    requires BelowUntilLast(accumulator, coins, PRICE)
    requires accumulator + Sum(coins) >= PRICE
    ensures Replay(Machine(), Live(WaitCoin(accumulator)), Inserts(coins)) ==
      (Live(Vending(accumulator + Sum(coins))), [])
    decreases |coins|
  {
    var c, rest := coins[0], coins[1..];
    var none: seq<Action> := [];
    assert Inserts(coins) == [Insert(c)] + Inserts(rest);
    assert none + none == none;
    if rest == [] {
      assert Sum(coins) == c.amount;
      ReplayFirst(Machine(), Live(WaitCoin(accumulator)), Insert(c), Inserts(rest),
        Live(Vending(accumulator + c.amount)), none, Live(Vending(accumulator + c.amount)), none);
    } else {
      Collect(accumulator + c.amount, rest);
      ReplayFirst(Machine(), Live(WaitCoin(accumulator)), Insert(c), Inserts(rest),
        Live(WaitCoin(accumulator + c.amount)), none, Live(Vending(accumulator + Sum(coins))), none);
    }
  }

  /**
   * Every choice made in `vend` is handed to the picker and releases the
   * change again, and the machine stays in `vend` until `Vended` arrives:
   * `k` choices release the change `k` times.
   */
  function Orders(total: int, products: seq<string>): seq<Action>
    decreases |products|
  {
    if products == [] then []
    else
      var n := |products| - 1;
      Orders(total, products[..n]) + [Pick(products[n]), ReleaseChange(total - PRICE)]
  }

  /** The `i`-th choice is picked, then followed by a release of total - 100. */
  lemma {:induction false} OrdersPairs(total: int, products: seq<string>)
    ensures |Orders(total, products)| == 2 * |products|
    ensures forall i :: 0 <= i < |products| ==>
      Orders(total, products)[2 * i] == Pick(products[i]) &&
      Orders(total, products)[2 * i + 1] == ReleaseChange(total - PRICE)
    decreases |products|
  {
    if products != [] {
      var n := |products| - 1;
      OrdersPairs(total, products[..n]);
      forall i | 0 <= i < n
        ensures products[..n][i] == products[i]
      {
      }
    }
  }

  function Choices(products: seq<string>): seq<VendMessage>
    decreases |products|
  {
    if products == [] then [] else Choices(products[..|products| - 1]) + [Choice(products[|products| - 1])]
  }

  lemma {:induction false} RepeatedChoices(total: int, products: seq<string>)
    ensures Replay(Machine(), Live(Vending(total)), Choices(products)) == (Live(Vending(total)), Orders(total, products))
    decreases |products|
  {
    if products != [] {
      var n := |products| - 1;
      var init, p := products[..n], products[n];
      var receipt := [Pick(p), ReleaseChange(total - PRICE)];
      RepeatedChoices(total, init);
      assert Deliver(Machine(), Live(Vending(total)), Choice(p)) == (Live(Vending(total)), receipt);
      ReplayStep(Machine(), Live(Vending(total)), Choices(init), Choice(p),
        Live(Vending(total)), Orders(total, init), Live(Vending(total)), receipt);
    }
  }

  /**
   * A whole purchase: the first coin always moves to `waitCoin`, whatever its
   * amount; once the coins reach the price, the choice is handed to the
   * picker and the overpaid amount is released, and the picker's `Vended`
   * reply returns the machine to `initial`.
   */
  lemma {:induction false} Purchase(coins: seq<Coin>, product: string)
    requires |coins| >= 2
    requires BelowUntilLast(coins[0].amount, coins[1..], PRICE)
    requires Sum(coins) >= PRICE
    ensures Replay(Machine(), Live(Initial), Inserts(coins) + [Choice(product), Vended(product)]) ==
      (Live(Initial), [Pick(product), ReleaseChange(Sum(coins) - PRICE)])
  {
    var c, rest := coins[0], coins[1..];
    var total := Sum(coins);
    var none: seq<Action> := [];
    var receipt := [Pick(product), ReleaseChange(total - PRICE)];
    assert Inserts(coins) == [Insert(c)] + Inserts(rest);
    assert none + none == none && none + receipt == receipt && receipt + none == receipt;
    Collect(c.amount, rest);
    ReplayFirst(Machine(), Live(Initial), Insert(c), Inserts(rest),
      Live(WaitCoin(c.amount)), none, Live(Vending(total)), none);
    var paid := Inserts(coins);
    ReplayStep(Machine(), Live(Initial), paid, Choice(product),
      Live(Vending(total)), none, Live(Vending(total)), receipt);
    ReplayStep(Machine(), Live(Initial), paid + [Choice(product)], Vended(product),
      Live(Vending(total)), receipt, Live(Initial), none);
    assert paid + [Choice(product)] + [Vended(product)] == paid + [Choice(product), Vended(product)];
  }

  /**
   * The round trip between the two actors, from any `vend(total)`: a choice
   * tells the picker the product and releases the change, the picker vends
   * that product and reports `Vended`, and the report returns the machine to
   * `initial` without further output.
   */
  lemma PickerRoundTrip(total: int, product: string)
    ensures Deliver(Machine(), Live(Vending(total)), Choice(product)) ==
      (Live(Vending(total)), [Pick(product), ReleaseChange(total - PRICE)])
    ensures var picked := Deliver(PickerProgram(), Live(Picker), Deliver(Machine(), Live(Vending(total)), Choice(product)).1[0].product);
      picked == (Live(Picker), [Dispense(product), Report(Vended(product))]) &&
      Deliver(Machine(), Live(Vending(total)), picked.1[1].reply) == (Live(Initial), [])
  {
  }

  /**
   * A whole purchase across both actors: the coins bring the machine to
   * `vend`, the choice releases `sum - 100` and hands the product to the
   * picker, which vends it once and whose report returns the machine to
   * `initial`.
   */
  lemma {:induction false} TwoActorPurchase(coins: seq<Coin>, product: string)
    requires |coins| >= 2
    requires BelowUntilLast(coins[0].amount, coins[1..], PRICE)
    requires Sum(coins) >= PRICE
    ensures var (vending, receipt) := Replay(Machine(), Live(Initial), Inserts(coins) + [Choice(product)]);
      receipt == [Pick(product), ReleaseChange(Sum(coins) - PRICE)] &&
      var picked := Deliver(PickerProgram(), Live(Picker), receipt[0].product).1;
      picked == [Dispense(product), Report(Vended(product))] &&
      Deliver(Machine(), vending, picked[1].reply) == (Live(Initial), [])
  {
    var c, rest := coins[0], coins[1..];
    var total := Sum(coins);
    var none: seq<Action> := [];
    var receipt := [Pick(product), ReleaseChange(total - PRICE)];
    assert Inserts(coins) == [Insert(c)] + Inserts(rest);
    assert none + none == none && none + receipt == receipt;
    Collect(c.amount, rest);
    ReplayFirst(Machine(), Live(Initial), Insert(c), Inserts(rest),
      Live(WaitCoin(c.amount)), none, Live(Vending(total)), none);
    PickerRoundTrip(total, product);
    ReplayStep(Machine(), Live(Initial), Inserts(coins), Choice(product),
      Live(Vending(total)), none, Live(Vending(total)), receipt);
  }

  /**
   * The run of `main`: coins of 50, 40 and 30 and a choice of "Chocolate";
   * the picker vends it and reports back, which returns the machine to
   * `initial` having released a change of 20.
   */
  lemma DemoRun()
    ensures Deliver(PickerProgram(), Live(Picker), "Chocolate") ==
      (Live(Picker), [Dispense("Chocolate"), Report(Vended("Chocolate"))])
    ensures Replay(Machine(), Live(Initial),
      [Insert(Coin(50)), Insert(Coin(40)), Insert(Coin(30)), Choice("Chocolate"), Vended("Chocolate")]) ==
      (Live(Initial), [Pick("Chocolate"), ReleaseChange(20)])
  {
    var coins := [Coin(50), Coin(40), Coin(30)];
    assert coins[1..] == [Coin(40), Coin(30)];
    assert Sum([Coin(30)]) == 30;
    assert Sum([Coin(40), Coin(30)]) == 70;
    assert Sum(coins) == 120;
    Purchase(coins, "Chocolate");
    assert Inserts(coins) + [Choice("Chocolate"), Vended("Chocolate")] ==
      [Insert(Coin(50)), Insert(Coin(40)), Insert(Coin(30)), Choice("Chocolate"), Vended("Chocolate")];
  }

  predicate ValidMessage(m: VendMessage)
  {
    m.Insert? ==> Valid(m.coin)
  }

  /** The states valid coins can reach: in `vend`, the total is at least the price and at most twice it. */
  predicate Sane(b: Behavior<State>)
  {
    b.Live? &&
    match b.state
    case Initial => true
    case WaitCoin(accumulator) => 1 <= accumulator <= PRICE
    case Vending(total) => PRICE <= total <= 2 * PRICE
  }

  /** Outputs that come in (pick, change) pairs, each change between 0 and the largest coin. */
  predicate Receipts(out: seq<Action>)
  {
    |out| % 2 == 0 &&
    forall i :: 0 <= i < |out| ==>
      (out[i].Pick? <==> i % 2 == 0) && (out[i].ReleaseChange? ==> 0 <= out[i].change <= PRICE)
  }

  lemma {:induction false} ReceiptsAppend(xs: seq<Action>, ys: seq<Action>)
    requires Receipts(xs) && Receipts(ys)
    ensures Receipts(xs + ys)
  {
    forall i | |xs| <= i < |xs + ys|
      ensures (xs + ys)[i] == ys[i - |xs|]
    {
    }
  }

  /**
   * With valid coins the machine stays sane, and every product handed to
   * the picker is followed by a release of change between 0 and one coin.
   */
  lemma {:induction false} ChangeBounded(b: Behavior<State>, ms: seq<VendMessage>)
    requires Sane(b)
    requires forall i :: 0 <= i < |ms| ==> ValidMessage(ms[i])
    ensures Sane(Replay(Machine(), b, ms).0)
    ensures Receipts(Replay(Machine(), b, ms).1)
    decreases |ms|
  {
    if ms != [] {
      var prefix := ms[..|ms| - 1];
      ChangeBounded(b, prefix);
      var mid := Replay(Machine(), b, prefix).0;
      var (_, out) := Deliver(Machine(), mid, ms[|ms| - 1]);
      assert Receipts(out);
      ReceiptsAppend(Replay(Machine(), b, prefix).1, out);
    }
  }
}
