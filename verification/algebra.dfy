/**
 * The behaviour/effect algebra shared by the four engines (Actor, TypedActor,
 * LoomActor, TypedLoomActor).
 *
 * A behaviour maps a message to an effect, and an effect maps the current
 * behaviour to the next one: `next = behavior.apply(m).apply(behavior)`.
 * Behaviours are closures in the source; here a behaviour written by a user is
 * `Live(s)`, where `s` is the named state its closure carries, and the code of
 * the closure is the `handle` function of a `Program`.
 */
module Algebra {

  /** An opaque capability to enqueue a message into one actor's mailbox. */
  datatype Address = Address(id: nat)

  datatype Option<T> = None | Some(value: T)

  /**
   * What an actor currently does.
   * - `Booting`: the placeholder that the untyped shared-pool engine installs
   *   until the actor has received an address (its own, told first);
   * - `Live(s)`: a user behaviour in named state `s`;
   * - `Dropping`: the behaviour `Die` installs, which drops every message.
   */
  datatype Behavior<S> = Booting | Live(state: S) | Dropping

  /** The three effects the source builds. */
  datatype Effect<S> = Stay | Become(next: Behavior<S>) | Die

  /**
   * Applying a behaviour to one message either returns an effect, having
   * performed the tells in `sent`, or throws, having performed the tells in
   * `sent` before the exception.
   */
  datatype Reaction<S, O> = Handled(effect: Effect<S>, sent: seq<O>) | Fault(sent: seq<O>)

  /**
   * The code of an actor: `handle` is the user behaviour in each named state,
   * `boot` is what the bootstrap behaviour of the untyped engine does with a
   * message (`Some(initial(self))` when the message is an address `self`).
   */
  datatype Program<!M, !S, O> = Program(handle: (S, M) -> Reaction<S, O>, boot: M -> Option<S>)

  /**
   * `effect.apply(current)`: `Stay` is the identity, `Become(x)` ignores the
   * current behaviour, and `Die` is `Become` of the behaviour that drops
   * everything.
   */
  function Next<S>(e: Effect<S>, current: Behavior<S>): (b: Behavior<S>)
    ensures e.Stay? ==> b == current
    ensures e.Become? ==> b == e.next
    ensures e.Die? ==> b == Dropping
  {
    match e
    case Stay => current
    case Become(next) => next
    case Die => Dropping
  }

  /**
   * `behavior.apply(m)`. The bootstrap and drop behaviours never throw and
   * tell nothing; the bootstrap behaviour becomes `initial(self)` on an
   * `Address` message (in every run its own, which `actorOf` tells first) and
   * stays on any message that is not an address; the drop behaviour always stays.
   */
  function Apply<M, S, O>(p: Program<M, S, O>, b: Behavior<S>, m: M): (r: Reaction<S, O>)
    ensures !b.Live? ==> r.Handled? && r.sent == []
    ensures b.Booting? ==> (r.effect.Become? <==> p.boot(m).Some?)
    ensures b.Booting? && p.boot(m).Some? ==> r.effect == Become(Live(p.boot(m).value))
    ensures b.Dropping? ==> r.effect == Stay
    ensures b.Live? ==> r == p.handle(b.state, m)
  {
    match b
    case Booting =>
      (match p.boot(m)
       case Some(s) => Handled(Become(Live(s)), [])
       case None => Handled(Stay, []))
    case Live(s) => p.handle(s, m)
    case Dropping => Handled(Stay, [])
  }

  /**
   * `behavior = behavior.apply(m).apply(behavior)`, with the tells performed.
   * When the behaviour throws, the assignment never happens.
   */
  function Deliver<M, S, O>(p: Program<M, S, O>, b: Behavior<S>, m: M): (r: (Behavior<S>, seq<O>))
    ensures r.1 == Apply(p, b, m).sent
    ensures Apply(p, b, m).Fault? ==> r.0 == b
    ensures Apply(p, b, m).Handled? ==> r.0 == Next(Apply(p, b, m).effect, b)
  {
    match Apply(p, b, m)
    case Handled(e, out) => (Next(e, b), out)
    case Fault(out) => (b, out)
  }

  /** Processing the messages `ms` one at a time, in order, starting from `b`. */
  function Replay<M, S, O>(p: Program<M, S, O>, b: Behavior<S>, ms: seq<M>): (r: (Behavior<S>, seq<O>))
    ensures ms == [] ==> r == (b, [])
    ensures |ms| == 1 ==> r == Deliver(p, b, ms[0])
    decreases |ms|
  {
    if ms == [] then (b, [])
    else
      var (b', out) := Replay(p, b, ms[..|ms| - 1]);
      var (b'', out') := Deliver(p, b', ms[|ms| - 1]);
      assert |ms| == 1 ==> ms[..0] == [] && out + out' == out';
      (b'', out + out')
  }

  /** Processing `xs + ys` is processing `xs`, then `ys` from where `xs` left off. */
  lemma {:induction false} ReplayAppend<M, S, O>(p: Program<M, S, O>, b: Behavior<S>, xs: seq<M>, ys: seq<M>)
    ensures Replay(p, b, xs + ys).0 == Replay(p, Replay(p, b, xs).0, ys).0
    ensures Replay(p, b, xs + ys).1 == Replay(p, b, xs).1 + Replay(p, Replay(p, b, xs).0, ys).1
    decreases |ys|
  {
    if ys == [] {
      assert xs + ys == xs;
    } else {
      var ys' := ys[..|ys| - 1];
      var y := ys[|ys| - 1];
      assert (xs + ys)[..|xs + ys| - 1] == xs + ys';
      assert (xs + ys)[|xs + ys| - 1] == y;
      ReplayAppend(p, b, xs, ys');
    }
  }

  /** The last message is processed by the behaviour the earlier ones left. */
  lemma {:induction false} ReplayStep<M, S, O>(p: Program<M, S, O>, b: Behavior<S>, ms: seq<M>, m: M,
                                               mid: Behavior<S>, out: seq<O>, next: Behavior<S>, out': seq<O>)
    requires Replay(p, b, ms) == (mid, out)
    requires Deliver(p, mid, m) == (next, out')
    ensures Replay(p, b, ms + [m]) == (next, out + out')
  {
    assert (ms + [m])[..|ms|] == ms;
  }

  /** The first message is processed by the current behaviour, the rest by the one it leaves. */
  lemma {:induction false} ReplayFirst<M, S, O>(p: Program<M, S, O>, b: Behavior<S>, m: M, ms: seq<M>,
                                                mid: Behavior<S>, out: seq<O>, next: Behavior<S>, out': seq<O>)
    requires Deliver(p, b, m) == (mid, out)
    requires Replay(p, mid, ms) == (next, out')
    ensures Replay(p, b, [m] + ms) == (next, out + out')
  {
    ReplayCons(p, b, m, ms);
  }

  /** The head of the mailbox is processed first, by the current behaviour. */
  lemma {:induction false} ReplayCons<M, S, O>(p: Program<M, S, O>, b: Behavior<S>, m: M, ms: seq<M>)
    ensures Replay(p, b, [m] + ms).0 == Replay(p, Deliver(p, b, m).0, ms).0
    ensures Replay(p, b, [m] + ms).1 == Deliver(p, b, m).1 + Replay(p, Deliver(p, b, m).0, ms).1
  {
    ReplayAppend(p, b, [m], ms);
    assert [m][..0] == [];
  }

  /** The behaviour `Die` installs drops every further message: it never changes and sends nothing. */
  lemma {:induction false} DroppingIsInert<M, S, O>(p: Program<M, S, O>, ms: seq<M>)
    ensures Replay(p, Dropping, ms) == (Dropping, [])
    decreases |ms|
  {
    if ms != [] {
      DroppingIsInert(p, ms[..|ms| - 1]);
      assert Deliver(p, Dropping, ms[|ms| - 1]) == (Dropping, []);
      var none: seq<O> := [];
      assert none + none == none;
    }
  }

  /** After `Die` the actor stays dead whatever it receives; only the tells of the dying message remain. */
  lemma {:induction false} DieIsFinal<M, S, O>(p: Program<M, S, O>, b: Behavior<S>, m: M, ms: seq<M>)
    requires Apply(p, b, m).Handled? && Apply(p, b, m).effect == Die
    ensures Replay(p, b, [m] + ms) == (Dropping, Apply(p, b, m).sent)
  {
    ReplayCons(p, b, m, ms);
    DroppingIsInert(p, ms);
    assert Deliver(p, b, m) == (Dropping, Apply(p, b, m).sent);
    assert Apply(p, b, m).sent + [] == Apply(p, b, m).sent;
  }

  /** `Become(x)` ignores the current behaviour: every later message is dispatched to `x`. */
  lemma {:induction false} BecomeDispatchesToNext<M, S, O>(p: Program<M, S, O>, b: Behavior<S>, m: M, x: Behavior<S>, ms: seq<M>)
    requires Apply(p, b, m).Handled? && Apply(p, b, m).effect == Become(x)
    ensures Replay(p, b, [m] + ms).0 == Replay(p, x, ms).0
    ensures Replay(p, b, [m] + ms).1 == Apply(p, b, m).sent + Replay(p, x, ms).1
  {
    ReplayCons(p, b, m, ms);
  }

  /** A behaviour that answers every message with `Stay` (or throws) is never replaced. */
  lemma {:induction false} StayKeepsBehavior<M, S, O>(p: Program<M, S, O>, b: Behavior<S>, ms: seq<M>)
    requires forall m :: Apply(p, b, m).Fault? || Apply(p, b, m).effect == Stay
    ensures Replay(p, b, ms).0 == b
    decreases |ms|
  {
    if ms != [] {
      StayKeepsBehavior(p, b, ms[..|ms| - 1]);
    }
  }

  /**
   * The bootstrap of the untyped engine: once an address (in every run the
   * actor's own, told first by `actorOf`) has been processed, the actor behaves
   * as `initial(self)`; any message that is not an address leaves
   * the bootstrap behaviour in place.
   */
  lemma {:induction false} Bootstrap<M, S, O>(p: Program<M, S, O>, self: M, ms: seq<M>)
    requires p.boot(self).Some?
    ensures Replay(p, Booting, [self] + ms) == Replay(p, Live(p.boot(self).value), ms)
    ensures forall m :: p.boot(m).None? ==> Deliver(p, Booting, m) == (Booting, [])
  {
    ReplayCons(p, Booting, self, ms);
    var start := Live(p.boot(self).value);
    assert Deliver(p, Booting, self) == (start, []);
    assert [] + Replay(p, start, ms).1 == Replay(p, start, ms).1;
  }
}
