/**
 * The shared-pool engine of Actor.java and TypedActor.java: a FIFO mailbox,
 * an `on` flag guarded by compare-and-set, and a runnable that the executor
 * runs to process at most one message.
 *
 * The actor is modelled as a sequential state machine whose atomic steps are
 * `Tell`, `StartTask` (the `try` block of `run`) and `FinishTask` (its
 * `finally` block). Splitting `run` in two lets tells from other threads
 * happen while a task is running. The executor is represented by two ghost
 * counters: tasks submitted and not yet started (`pending`) and tasks started
 * and not yet finished (`running`). A submission may be rejected
 * (`accepted == false`), in which case the engine resets `on` and rethrows
 * (`thrown`).
 */
module SharedPool {
  import opened Algebra

  class PoolActor<M, S, O> {
    const program: Program<M, S, O>
    /** The behaviour the actor was created with. */
    ghost const initial: Behavior<S>

    var mailbox: seq<M>
    /** The AtomicInteger `on`: 1 while a task is submitted or running. */
    var on: int
    var behavior: Behavior<S>

    ghost var pending: nat
    ghost var running: nat
    /** Every message ever told, every message polled, every tell the behaviours performed. */
    ghost var received: seq<M>
    ghost var processed: seq<M>
    ghost var sent: seq<O>

    /**
     * The scheduling invariant: `on` is 0 or 1 and counts the tasks on the
     * executor, so at most one task is pending or running at any time; the
     * messages polled so far are a prefix of the messages told, in order; and
     * the behaviour is the fold of the polled messages over the initial one.
     */
    ghost predicate Valid()
      reads this
    {
      (on == 0 || on == 1) && pending + running == on &&
      received == processed + mailbox &&
      (behavior, sent) == Replay(program, initial, processed)
    }

    /** No message is stranded: while messages wait, a task is submitted or running. */
    ghost predicate Progressing()
      reads this
    {
      mailbox != [] ==> on == 1
    }

    /** TypedActor.System.actorOf: the behaviour is `initial.apply(this)`, no message is sent. */
    constructor (program: Program<M, S, O>, init: S)
      ensures Valid() && Progressing()
      ensures this.program == program && initial == Live(init) && behavior == Live(init)
      ensures mailbox == [] && on == 0 && pending == 0 && running == 0
      ensures received == [] && processed == [] && sent == []
    {
      this.program := program;
      initial := Live(init);
      behavior := Live(init);
      mailbox := [];
      on := 0;
      pending, running := 0, 0;
      received, processed, sent := [], [], [];
    }

    /** Actor.System.actorOf before its final tell: the behaviour waits for the actor's own address. */
    constructor Bootstrapping(program: Program<M, S, O>)
      ensures Valid() && Progressing()
      ensures this.program == program && initial == Booting && behavior == Booting
      ensures mailbox == [] && on == 0 && pending == 0 && running == 0
      ensures received == [] && processed == [] && sent == []
    {
      this.program := program;
      initial := Booting;
      behavior := Booting;
      mailbox := [];
      on := 0;
      pending, running := 0, 0;
      received, processed, sent := [], [], [];
    }

    /**
     * `async`: submit the runnable only if the mailbox is non-empty and the
     * compare-and-set of `on` from 0 to 1 succeeds; when the executor rejects
     * it, reset `on` to 0 and rethrow.
     */
    method Async(accepted: bool) returns (thrown: bool)
      requires (on == 0 || on == 1) && pending + running == on
      modifies this`on, this`pending
      ensures (on == 0 || on == 1) && pending + running == on
      ensures thrown <==> mailbox != [] && old(on) == 0 && !accepted
      ensures on == if mailbox != [] && !thrown then 1 else old(on)
      ensures pending == if mailbox != [] && old(on) == 0 && accepted then old(pending) + 1 else old(pending)
    {
      thrown := false;
      if mailbox != [] && on == 0 {
        on := 1;
        if accepted {
          pending := pending + 1;
        } else {
          on := 0;
          thrown := true;
        }
      }
    }

    /** `tell`: enqueue at the tail, try to schedule, return the same address. */
    method Tell(m: M, accepted: bool) returns (self: PoolActor<M, S, O>, thrown: bool)
      requires Valid()
      modifies this
      ensures Valid()
      ensures self == this
      ensures mailbox == old(mailbox) + [m] && received == old(received) + [m]
      ensures behavior == old(behavior) && processed == old(processed) && sent == old(sent)
      ensures running == old(running)
      ensures thrown <==> old(on) == 0 && !accepted
      ensures on == if thrown then 0 else 1
      ensures pending == if old(on) == 0 && accepted then old(pending) + 1 else old(pending)
      ensures !thrown ==> Progressing()
    {
      mailbox := mailbox + [m];
      received := received + [m];
      thrown := Async(accepted);
      self := this;
    }

    /**
     * The executor starts a submitted task, which runs the `try` block of
     * `run`: when `on` is 1, poll the mailbox and, if a message was there,
     * replace the behaviour by `behavior.apply(m).apply(behavior)`.
     */
    method StartTask() returns (out: seq<O>, faulted: bool)
      requires Valid() && pending > 0
      modifies this
      ensures Valid() && Progressing()
      ensures pending == old(pending) - 1 && running == old(running) + 1 == 1 && on == 1
      ensures received == old(received)
      ensures old(mailbox) == [] ==>
        mailbox == [] && behavior == old(behavior) && processed == old(processed) && out == [] && !faulted
      ensures old(mailbox) != [] ==>
        mailbox == old(mailbox)[1..] && processed == old(processed) + [old(mailbox)[0]] &&
        (behavior, out) == Deliver(program, old(behavior), old(mailbox)[0]) &&
        faulted == Apply(program, old(behavior), old(mailbox)[0]).Fault?
      ensures sent == old(sent) + out
    {
      pending := pending - 1;
      running := running + 1;
      out, faulted := [], false;
      if on == 1 {
        if mailbox != [] {
          var m := mailbox[0];
          mailbox := mailbox[1..];
          var r := Apply(program, behavior, m);
          match r {
            case Handled(e, o) =>
              behavior := Next(e, behavior);
              out := o;
            case Fault(o) =>
              out, faulted := o, true;
          }
          ghost var before := processed;
          processed := processed + [m];
          assert processed[..|processed| - 1] == before;
          sent := sent + out;
        }
      }
    }

    /** The `finally` block of `run`: switch `on` off, then re-check with `async`. */
    method FinishTask(accepted: bool) returns (thrown: bool)
      requires Valid() && running > 0
      modifies this
      ensures Valid()
      ensures running == 0
      ensures mailbox == old(mailbox) && behavior == old(behavior)
      ensures received == old(received) && processed == old(processed) && sent == old(sent)
      ensures thrown <==> mailbox != [] && !accepted
      ensures pending == if mailbox != [] && accepted then 1 else 0
      ensures !thrown ==> Progressing()
    {
      running := running - 1;
      on := 0;
      thrown := Async(accepted);
    }

    /**
     * `run` as one step: at most one message, the head of the mailbox, is
     * processed, then the task is resubmitted if messages remain.
     */
    method Run(accepted: bool) returns (out: seq<O>, faulted: bool, thrown: bool)
      requires Valid() && pending > 0
      modifies this
      ensures Valid()
      ensures running == 0 && received == old(received)
      ensures old(mailbox) == [] ==>
        mailbox == [] && behavior == old(behavior) && processed == old(processed) && out == []
      ensures old(mailbox) != [] ==>
        mailbox == old(mailbox)[1..] && processed == old(processed) + [old(mailbox)[0]] &&
        (behavior, out) == Deliver(program, old(behavior), old(mailbox)[0])
      ensures thrown <==> mailbox != [] && !accepted
      ensures !thrown ==> Progressing()
    {
      out, faulted := StartTask();
      thrown := FinishTask(accepted);
    }
  }

  /**
   * Actor.System.actorOf: build the bootstrapping actor, then tell it its own
   * address, so that the address is the first message it will process.
   */
  method ActorOf<M, S, O>(program: Program<M, S, O>, self: M, accepted: bool)
    returns (a: PoolActor<M, S, O>, thrown: bool)
    ensures fresh(a) && a.Valid() && a.program == program
    ensures a.initial == Booting && a.behavior == Booting
    ensures a.mailbox == [self] && a.received == [self] && a.processed == []
    ensures thrown <==> !accepted
    ensures !thrown ==> a.on == 1 && a.pending == 1 && a.Progressing()
    ensures thrown ==> a.on == 0 && a.pending == 0
  {
    a := new PoolActor.Bootstrapping(program);
    var _, t := a.Tell(self, accepted);
    thrown := t;
  }
}
