/**
 * The ping-pong examples of typed/examples/PingPong.java and TypedActor.java's
 * Demo2: a ponger that answers ten pings with a pong and the eleventh with a
 * deadly pong before dying, and a pinger that answers every pong with a ping
 * and dies on the deadly one. Demo2 calls the plain pong `Pong`; here it is
 * `SimplePong` as in PingPong.java.
 */
module PingPong {
  import opened Algebra

  /** The number of plain pongs the ponger sends before the deadly one. */
  const ROUNDS: int := 10

  datatype Ping = Ping(sender: Address)
  datatype Pong = SimplePong(sender: Address) | DeadlyPong(sender: Address)

  /** A tell performed by a behaviour: the message and the address it went to. */
  datatype PongTell = PongTell(to: Address, pong: Pong)
  datatype PingTell = PingTell(to: Address, ping: Ping)

  /** The closure `m -> pongerBehavior(self, m, counter)`. */
  datatype PongerState = PongerState(self: Address, counter: int)
  /** The closure `msg -> pingerBehavior(self, msg)`. */
  datatype PingerState = PingerState(self: Address)

  /** `pongerBehavior(self, msg, counter)`. */
  function Ponger(s: PongerState, msg: Ping): (r: Reaction<PongerState, PongTell>)
    ensures r.Handled? && |r.sent| == 1 && r.sent[0].to == msg.sender && r.sent[0].pong.sender == s.self
    ensures s.counter < ROUNDS <==> r.sent[0].pong.SimplePong?
    ensures s.counter < ROUNDS ==> r.effect == Become(Live(PongerState(s.self, s.counter + 1)))
    ensures s.counter >= ROUNDS ==> r.effect == Die
  {
    if s.counter < ROUNDS then
      Handled(Become(Live(PongerState(s.self, s.counter + 1))), [PongTell(msg.sender, SimplePong(s.self))])
    else
      Handled(Die, [PongTell(msg.sender, DeadlyPong(s.self))])
  }

  /** `pingerBehavior(self, msg)`. */
  function Pinger(s: PingerState, msg: Pong): (r: Reaction<PingerState, PingTell>)
    ensures r.Handled? && r.sent == [PingTell(msg.sender, Ping(s.self))]
    ensures r.effect == if msg.SimplePong? then Stay else Die
  {
    match msg
    case SimplePong(p) => Handled(Stay, [PingTell(p, Ping(s.self))])
    case DeadlyPong(p) => Handled(Die, [PingTell(p, Ping(s.self))])
  }

  /** `actorOf(self -> msg -> pongerBehavior(self, msg, 0))`: a typed actor, so no bootstrap message. */
  function PongerProgram(): (r: Program<Ping, PongerState, PongTell>)
    ensures forall m :: r.boot(m).None?
    ensures forall s, m :: Apply(r, Live(s), m) == Ponger(s, m)
  {
    Program((s, m) => Ponger(s, m), (m: Ping) => None)
  }

  /** `actorOf(self -> msg -> pingerBehavior(self, msg))`. */
  function PingerProgram(): (r: Program<Pong, PingerState, PingTell>)
    ensures forall m :: r.boot(m).None?
    ensures forall s, m :: Apply(r, Live(s), m) == Pinger(s, m)
  {
    Program((s, m) => Pinger(s, m), (m: Pong) => None)
  }

  /** The addresses `actorOf` gave the two actors in `main`. */
  const PONGER: Address := Address(0)
  const PINGER: Address := Address(1)

  /** A message on its way to one of the two actors. */
  datatype Envelope = ToPonger(ping: Ping) | ToPinger(pong: Pong)

  /**
   * The two actors of `main` and the messages in flight, in the order they
   * were told; `delivered` is every message processed so far, in order.
   */
  datatype World = World(
    ponger: Behavior<PongerState>,
    pinger: Behavior<PingerState>,
    inFlight: seq<Envelope>,
    delivered: seq<Envelope>)

  /** Tells to an address other than the two actors reach nobody. */
  function RoutePongs(tells: seq<PongTell>): (es: seq<Envelope>)
    ensures |es| <= |tells|
  {
    if tells == [] then []
    else (if tells[0].to == PINGER then [ToPinger(tells[0].pong)] else []) + RoutePongs(tells[1..])
  }

  function RoutePings(tells: seq<PingTell>): (es: seq<Envelope>)
    ensures |es| <= |tells|
  {
    if tells == [] then []
    else (if tells[0].to == PONGER then [ToPonger(tells[0].ping)] else []) + RoutePings(tells[1..])
  }

  /** The oldest message in flight is processed by the actor it is addressed to. */
  function Step(w: World): (w': World)
    requires w.inFlight != []
    ensures w'.delivered == w.delivered + [w.inFlight[0]]
    ensures w.inFlight[0].ToPonger? ==>
      var (b, out) := Deliver(PongerProgram(), w.ponger, w.inFlight[0].ping);
      w'.ponger == b && w'.pinger == w.pinger && w'.inFlight == w.inFlight[1..] + RoutePongs(out)
    ensures w.inFlight[0].ToPinger? ==>
      var (b, out) := Deliver(PingerProgram(), w.pinger, w.inFlight[0].pong);
      w'.pinger == b && w'.ponger == w.ponger && w'.inFlight == w.inFlight[1..] + RoutePings(out)
  {
    var e := w.inFlight[0];
    match e
    case ToPonger(ping) =>
      var (b, out) := Deliver(PongerProgram(), w.ponger, ping);
      World(b, w.pinger, w.inFlight[1..] + RoutePongs(out), w.delivered + [e])
    case ToPinger(pong) =>
      var (b, out) := Deliver(PingerProgram(), w.pinger, pong);
      World(w.ponger, b, w.inFlight[1..] + RoutePings(out), w.delivered + [e])
  }

  /** Up to `n` steps, stopping early once nothing is in flight. */
  function Run(w: World, n: nat): (w': World)
    ensures w.delivered <= w'.delivered && |w'.delivered| <= |w.delivered| + n
    ensures |w'.delivered| < |w.delivered| + n ==> w'.inFlight == []
    ensures w.inFlight == [] ==> w' == w
    decreases n
  {
    if n == 0 || w.inFlight == [] then w else Run(Step(w), n - 1)
  }

  /** After `ponger.tell(new Ping(pinger))` in `main`. */
  function Start(): (w: World)
    ensures w.ponger == Live(PongerState(PONGER, 0)) && w.pinger == Live(PingerState(PINGER))
    ensures w.inFlight == [ToPonger(Ping(PINGER))] && w.delivered == []
  {
    World(Live(PongerState(PONGER, 0)), Live(PingerState(PINGER)), [ToPonger(Ping(PINGER))], [])
  }

  const PING: Envelope := ToPonger(Ping(PINGER))
  const PONG: Envelope := ToPinger(SimplePong(PONGER))
  const DEADLY: Envelope := ToPinger(DeadlyPong(PONGER))

  /** The messages delivered from counter `k` on: a ping and a pong per round left, then ping, deadly pong, ping. */
  function Rally(k: int): seq<Envelope>
    decreases ROUNDS - k
  {
    if k >= ROUNDS then [PING, DEADLY, PING] else [PING, PONG] + Rally(k + 1)
  }

  /** How many steps are left from counter `k`. */
  function StepsLeft(k: int): nat
  {
    if k >= ROUNDS then 3 else 2 * (ROUNDS - k) + 3
  }

  /** How many times `e` occurs in `s`. */
  function Occurrences(s: seq<Envelope>, e: Envelope): nat
  {
    if s == [] then 0 else (if s[0] == e then 1 else 0) + Occurrences(s[1..], e)
  }

  lemma {:induction false} OccurrencesAppend(a: seq<Envelope>, b: seq<Envelope>, e: Envelope)
    ensures Occurrences(a + b, e) == Occurrences(a, e) + Occurrences(b, e)
  {
    if a != [] {
      assert (a + b)[0] == a[0] && (a + b)[1..] == a[1..] + b;
      OccurrencesAppend(a[1..], b, e);
    } else {
      assert a + b == b;
    }
  }

  lemma {:induction false} RallyCounts(k: int)
    requires 0 <= k <= ROUNDS
    ensures Occurrences(Rally(k), PING) == ROUNDS - k + 2
    ensures Occurrences(Rally(k), PONG) == ROUNDS - k
    ensures Occurrences(Rally(k), DEADLY) == 1
    ensures |Rally(k)| == 2 * (ROUNDS - k) + 3
    decreases ROUNDS - k
  {
    if k < ROUNDS {
      RallyCounts(k + 1);
      var r := Rally(k + 1);
      assert Rally(k) == [PING, PONG] + r;
      OccurrencesAppend([PING, PONG], r, PING);
      OccurrencesAppend([PING, PONG], r, PONG);
      OccurrencesAppend([PING, PONG], r, DEADLY);
      assert [PING, PONG][1..] == [PONG] && [PONG][1..] == [];
    } else {
      var r := Rally(k);
      assert r == [PING, DEADLY, PING];
      assert r[1..] == [DEADLY, PING] && [DEADLY, PING][1..] == [PING] && [PING][1..] == [];
      assert Occurrences([PING], PING) == 1 && Occurrences([DEADLY, PING], PING) == 1;
      assert Occurrences([PING], PONG) == 0;
      assert Occurrences([DEADLY, PING], PONG) == Occurrences([PING], PONG);
      assert Occurrences([PING], DEADLY) == 0 && Occurrences([DEADLY, PING], DEADLY) == 1;
    }
  }

  /** The world with the ponger at counter `k`, the pinger alive and one ping in flight. */
  function Rallying(k: int, log: seq<Envelope>): World
  {
    World(Live(PongerState(PONGER, k)), Live(PingerState(PINGER)), [PING], log)
  }

  lemma RunTwo(w: World, n: nat)
    requires w.inFlight != [] && Step(w).inFlight != []
    ensures Run(w, n + 2) == Run(Step(Step(w)), n)
  {
  }

  /** One round below the limit: a ping answered by a pong, which is answered by the next ping. */
  lemma Round(k: int, log: seq<Envelope>)
    requires 0 <= k < ROUNDS
    ensures Step(Rallying(k, log)) == World(Live(PongerState(PONGER, k + 1)), Live(PingerState(PINGER)), [PONG], log + [PING])
    ensures Step(Step(Rallying(k, log))) == Rallying(k + 1, log + [PING, PONG])
  {
    assert RoutePongs([PongTell(PINGER, SimplePong(PONGER))]) == [PONG];
    assert RoutePings([PingTell(PONGER, Ping(PINGER))]) == [PING];
    assert log + [PING] + [PONG] == log + [PING, PONG];
  }

  /** A round below the limit leaves one round fewer, with its ping and pong delivered. */
  lemma RoundRun(k: int, log: seq<Envelope>)
    requires 0 <= k < ROUNDS
    ensures Run(Rallying(k, log), StepsLeft(k)) == Run(Rallying(k + 1, log + [PING, PONG]), StepsLeft(k + 1))
  {
    var n := StepsLeft(k + 1);
    assert StepsLeft(k) == n + 2;
    Round(k, log);
    RunTwo(Rallying(k, log), n);
  }

  lemma RallyStep(k: int, log: seq<Envelope>)
    requires 0 <= k < ROUNDS
    ensures log + Rally(k) == (log + [PING, PONG]) + Rally(k + 1)
  {
    assert Rally(k) == [PING, PONG] + Rally(k + 1);
  }

  /** The last round: the deadly pong, the pinger's last ping, and that ping dropped by the dead ponger. */
  lemma Finale(log: seq<Envelope>)
    ensures Run(Rallying(ROUNDS, log), StepsLeft(ROUNDS)) == World(Dropping, Dropping, [], log + Rally(ROUNDS))
  {
    var w1 := Step(Rallying(ROUNDS, log));
    assert RoutePongs([PongTell(PINGER, DeadlyPong(PONGER))]) == [DEADLY];
    assert w1 == World(Dropping, Live(PingerState(PINGER)), [DEADLY], log + [PING]);
    var w2 := Step(w1);
    assert RoutePings([PingTell(PONGER, Ping(PINGER))]) == [PING];
    assert w2 == World(Dropping, Dropping, [PING], log + [PING, DEADLY]);
    var w3 := Step(w2);
    var none: seq<Envelope> := [];
    assert RoutePongs([]) == none && none + none == none;
    assert w3 == World(Dropping, Dropping, [], log + [PING, DEADLY, PING]);
    RunTwo(Rallying(ROUNDS, log), 1);
  }

  /**
   * From a ponger at counter `k` and one ping in flight, the rally runs to
   * its end: both actors dead, nothing in flight, and the delivered messages
   * are `Rally(k)`.
   */
  lemma {:induction false} RallyFrom(k: int, log: seq<Envelope>)
    requires 0 <= k <= ROUNDS
    ensures Run(Rallying(k, log), StepsLeft(k)) == World(Dropping, Dropping, [], log + Rally(k))
    decreases ROUNDS - k
  {
    if k < ROUNDS {
      RallyFrom(k + 1, log + [PING, PONG]);
      RoundRun(k, log);
      RallyStep(k, log);
    } else {
      Finale(log);
    }
  }

  /**
   * The run of `main` is the rally from counter 0: both actors end dead and
   * nothing is left in flight.
   */
  lemma MainRunEnds()
    ensures Run(Start(), StepsLeft(0)) == World(Dropping, Dropping, [], Rally(0))
  {
    assert Start() == Rallying(0, []);
    RallyFrom(0, []);
    assert [] + Rally(0) == Rally(0);
  }

  /**
   * In the run of `main` the ponger sends exactly ten plain pongs and one
   * deadly pong, and the pinger's pings number twelve in all: the last one
   * reaches the dead ponger and is dropped.
   */
  lemma MainRunCounts()
    ensures Occurrences(Run(Start(), StepsLeft(0)).delivered, PONG) == ROUNDS
    ensures Occurrences(Run(Start(), StepsLeft(0)).delivered, DEADLY) == 1
    ensures Occurrences(Run(Start(), StepsLeft(0)).delivered, PING) == ROUNDS + 2
  {
    MainRunEnds();
    RallyCounts(0);
  }

  /** Once the run of `main` has ended, no further step changes anything. */
  lemma MainRunQuiescent()
    ensures forall n: nat :: Run(Run(Start(), StepsLeft(0)), n) == Run(Start(), StepsLeft(0))
  {
    MainRunEnds();
  }

  /**
   * The `StatefulPonger` of Demo2: the same ponger written as an object whose
   * `counter` field is incremented in place, answering `Stay` instead of
   * `Become`.
   */
  class StatefulPonger {
    const self: Address
    var counter: int

    constructor (self: Address)
      ensures this.self == self && counter == 0
    {
      this.self := self;
      counter := 0;
    }

    /**
     * `apply(msg)`. It sends what the closure ponger at the same counter
     * sends, and its new counter is the counter of the closure the other
     * ponger becomes; where that one dies, this one dies too.
     */
    method Apply(msg: Ping) returns (effect: Effect<PongerState>, sent: PongTell)
      modifies this`counter
      ensures Ponger(PongerState(self, old(counter)), msg).sent == [sent]
      ensures old(counter) < ROUNDS ==>
        effect == Stay && Ponger(PongerState(self, old(counter)), msg).effect == Become(Live(PongerState(self, counter)))
      ensures old(counter) >= ROUNDS ==> effect == Die && counter == old(counter)
    {
      if counter < ROUNDS {
        sent := PongTell(msg.sender, SimplePong(self));
        counter := counter + 1;
        effect := Stay;
      } else {
        sent := PongTell(msg.sender, DeadlyPong(self));
        effect := Die;
      }
    }
  }
}
