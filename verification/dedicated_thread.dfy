/**
 * The dedicated-thread engine of LoomActor.java and TypedLoomActor.java:
 * `tell` only enqueues, and one runnable, handed to the executor once by
 * `actorOf`, builds the initial behaviour and then loops on a blocking take.
 *
 * The loop's progress is the field `loop`. A take on an empty mailbox blocks
 * (no step is possible until a tell); an interrupted take throws, which ends
 * the loop; an exception thrown by a behaviour is not caught by the loop
 * either, so it ends the loop too.
 */
module DedicatedThread {
  import opened Algebra

  datatype Loop =
    | Submitted  // handed to the executor, `run` not yet started
    | Waiting    // inside `while (true)`, at `mb.take()`
    | Exited     // the loop was left, by interruption or by an exception

  class LoomActor<M, S, O> {
    const program: Program<M, S, O>
    /** What `initial.apply(this)` returns. */
    const initial: S

    var mailbox: seq<M>
    var loop: Loop
    /** The local variable `behavior` of `run`. */
    var behavior: Behavior<S>

    ghost var received: seq<M>
    ghost var taken: seq<M>
    ghost var sent: seq<O>

    /**
     * Messages are taken in the order they were told, and once the loop has
     * started the behaviour is the fold of the taken messages over the initial one.
     */
    ghost predicate Valid()
      reads this
    {
      received == taken + mailbox &&
      (loop == Submitted ==> taken == [] && sent == []) &&
      (loop != Submitted ==> (behavior, sent) == Replay(program, Live(initial), taken))
    }

    /** `actorOf`: an empty mailbox and the runnable handed to the executor exactly once. */
    constructor (program: Program<M, S, O>, initial: S)
      ensures Valid()
      ensures this.program == program && this.initial == initial
      ensures mailbox == [] && loop == Submitted
      ensures received == [] && taken == [] && sent == []
    {
      this.program := program;
      this.initial := initial;
      mailbox := [];
      loop := Submitted;
      behavior := Live(initial);
      received, taken, sent := [], [], [];
    }

    /** `tell`: enqueue and return the same address; nothing is scheduled. */
    method Tell(m: M) returns (self: LoomActor<M, S, O>)
      requires Valid()
      modifies this`mailbox, this`received
      ensures Valid() && self == this
      ensures mailbox == old(mailbox) + [m] && received == old(received) + [m]
    {
      mailbox := mailbox + [m];
      received := received + [m];
      self := this;
    }

    /** The executor starts the runnable: the initial behaviour is built once, before the loop. */
    method Start()
      requires Valid() && loop == Submitted
      modifies this`loop, this`behavior
      ensures Valid()
      ensures loop == Waiting && behavior == Live(initial)
    {
      behavior := Live(initial);
      loop := Waiting;
    }

    /**
     * One iteration of the loop: `mb.take()` then
     * `behavior = behavior.apply(m).apply(behavior)`. The take only returns
     * when the mailbox is non-empty or the thread is interrupted.
     */
    method Take(interrupted: bool) returns (out: seq<O>, faulted: bool)
      requires Valid() && loop == Waiting
      requires interrupted || mailbox != []
      modifies this`mailbox, this`loop, this`behavior, this`taken, this`sent
      ensures Valid()
      ensures interrupted ==>
        loop == Exited && mailbox == old(mailbox) && behavior == old(behavior) &&
        taken == old(taken) && out == [] && !faulted
      ensures !interrupted ==>
        mailbox == old(mailbox)[1..] && taken == old(taken) + [old(mailbox)[0]] &&
        (behavior, out) == Deliver(program, old(behavior), old(mailbox)[0]) &&
        faulted == Apply(program, old(behavior), old(mailbox)[0]).Fault? &&
        loop == if faulted then Exited else Waiting
      ensures sent == old(sent) + out
    {
      out, faulted := [], false;
      if interrupted {
        loop := Exited;
      } else {
        var m := mailbox[0];
        mailbox := mailbox[1..];
        var r := Apply(program, behavior, m);
        match r {
          case Handled(e, o) =>
            behavior := Next(e, behavior);
            out := o;
          case Fault(o) =>
            out, faulted := o, true;
            loop := Exited;
        }
        ghost var before := taken;
        taken := taken + [m];
        assert taken[..|taken| - 1] == before;
        sent := sent + out;
      }
    }

    /**
     * The loop of `run`, for as long as messages are available and no
     * interrupt arrives: the messages are taken one per iteration, in FIFO
     * order, and the behaviour is their fold. It stops when the take would
     * block, or early when a behaviour throws.
     */
    method RunUntilBlocked() returns (out: seq<O>, ghost consumed: seq<M>)
      requires Valid() && loop == Waiting
      modifies this`mailbox, this`loop, this`behavior, this`taken, this`sent
      ensures Valid()
      ensures old(mailbox) == consumed + mailbox && taken == old(taken) + consumed
      ensures (behavior, out) == Replay(program, old(behavior), consumed)
      ensures loop == Waiting ==> mailbox == []
      ensures loop == Exited ==> (consumed != [] &&
        Apply(program, Replay(program, old(behavior), consumed[..|consumed| - 1]).0, consumed[|consumed| - 1]).Fault?)
      ensures loop == Waiting || loop == Exited
    {
      out, consumed := [], [];
      while loop == Waiting && mailbox != []
        invariant Valid()
        invariant loop == Waiting || loop == Exited
        invariant old(mailbox) == consumed + mailbox && taken == old(taken) + consumed
        invariant (behavior, out) == Replay(program, old(behavior), consumed)
        invariant loop == Exited ==> (consumed != [] &&
          Apply(program, Replay(program, old(behavior), consumed[..|consumed| - 1]).0, consumed[|consumed| - 1]).Fault?)
        decreases |mailbox|, if loop == Waiting then 1 else 0
      {
        ghost var m := mailbox[0];
        ghost var before := consumed;
        var o, _ := Take(false);
        out := out + o;
        consumed := consumed + [m];
        assert consumed[..|consumed| - 1] == before;
      }
    }
  }
}
