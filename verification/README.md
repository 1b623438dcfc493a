# min-java-actors in Dafny

min-java-actors is a very small actor library. An actor is an address with a
mailbox and a current behaviour. A behaviour maps a message to an effect, and an
effect maps the current behaviour to the next one. The actor processes one
message at a time, computing `behavior = behavior.apply(m).apply(behavior)`.
The library builds three effects:

- `Become(b)` installs `b`;
- `Stay` keeps the current behaviour;
- `Die` installs a behaviour that drops every further message.

This project models that core and the example programs written on top of it:

- **The algebra** (`Algebra`, algebra.dfy). A behaviour written by a user is
  `Live(s)`: its closure is a handler function, and `s` is the state the
  closure captures. Processing a sequence of messages is the fold `Replay`.
  Tells performed by a behaviour are its outputs.
- **The shared-pool engine** of `Actor.java` and `TypedActor.java`
  (`SharedPool`). It is a class with the mailbox, the `on` flag and the
  behaviour as fields. `tell`, the `try` block of `run` and its `finally` block
  are atomic steps, and the executor is represented by counters of submitted and
  running tasks. The scheduling invariant is proved: at most one task, and no
  stranded message.
- **The dedicated-thread engine** of `LoomActor.java` and `TypedLoomActor.java`
  (`DedicatedThread`). It is a class whose loop takes messages in FIFO order and
  folds them into the behaviour. It stops on an interrupt or on an exception
  thrown by a behaviour.
- **The example behaviours**:
  - ping-pong (`PingPong`, including the `StatefulPonger` object);
  - the two vending machines (`VendingAlt`, `Vending`) and their `Coin`
    (`Coins`);
  - the line-framing socket actors of the asynchronous chat (`ChannelActor`,
    `AsyncChannelActor`, `ChannelsActor`), over `String.indexOf` and
    `String.trim` (`Text`) and a shared framing step (`Framing`);
  - the chat servers' client managers and connection acceptors (`ChatServer`).

Socket reads arrive as messages carrying the text read. Socket writes, printed
output and tells are outputs of the behaviour. The executor's decision to accept
or reject a task, and the interruption of a blocked take, are parameters.

## Model

All source paths below are under `src/main/java/io/github/evacchi/`, written in
full in the table.

| member | source | states |
|---|---|---|
| Algebra.Next | src/main/java/io/github/evacchi/Actor.java:38-40 | `Stay` returns the current behaviour, `Become(x)` returns `x` whatever the current one, and `Die` installs the drop behaviour |
| Algebra.Apply | src/main/java/io/github/evacchi/Actor.java:40-48 | the bootstrap and drop behaviours never throw and tell nothing; the bootstrap becomes `initial(self)` on an `Address` message (in every run its own, which `actorOf` tells first) and stays on any other; the drop behaviour always stays; a user behaviour runs its own code |
| Algebra.Deliver | src/main/java/io/github/evacchi/Actor.java:51 | the tells performed are those of `behavior.apply(m)`, even when it throws; a throwing behaviour is kept, otherwise the effect is applied to the current behaviour |
| Algebra.Replay | src/main/java/io/github/evacchi/Actor.java:49-52 | an empty mailbox changes nothing and tells nothing; a single message is exactly one `behavior.apply(m).apply(behavior)` |
| Algebra.BecomeDispatchesToNext | src/main/java/io/github/evacchi/Actor.java:38 | after `Become(x)` every later message is processed by `x`, whatever the behaviour was |
| Algebra.StayKeepsBehavior | src/main/java/io/github/evacchi/Actor.java:39 | a behaviour that only answers `Stay` (or throws) is never replaced, whatever messages follow |
| Algebra.DieIsFinal | src/main/java/io/github/evacchi/Actor.java:40 | after `Die` the actor is the drop behaviour for ever and sends nothing more; only the tells of the dying message remain |
| Algebra.DroppingIsInert | src/main/java/io/github/evacchi/TypedActor.java:40 | the drop behaviour `Die()` installs answers every message with `Stay` and sends nothing |
| Algebra.Bootstrap | src/main/java/io/github/evacchi/Actor.java:48 | the bootstrap behaviour becomes `initial(self)` on an `Address` message (in every run its own, which `actorOf` tells first) and stays, sending nothing, on any message that is not an address |
| Algebra.ReplayAppend | src/main/java/io/github/evacchi/Actor.java:51 | processing `xs + ys` is processing `xs` and then `ys` from the resulting behaviour; the outputs concatenate |
| Algebra.ReplayStep | src/main/java/io/github/evacchi/Actor.java:51 | the last message is processed by the behaviour the earlier ones left, and its tells follow theirs |
| Algebra.ReplayFirst | src/main/java/io/github/evacchi/LoomActor.java:55-58 | when the head of the mailbox leads to `mid` and the rest of the mailbox takes `mid` to `next`, the whole mailbox ends in `next`, with the head's tells first |
| Algebra.ReplayCons | src/main/java/io/github/evacchi/LoomActor.java:55-58 | the head of the mailbox is processed first, by the current behaviour, and the rest by the behaviour it yields |
| SharedPool.PoolActor.constructor | src/main/java/io/github/evacchi/TypedActor.java:42-48 | a typed actor starts with `initial.apply(this)`, an empty mailbox, `on == 0` and no task |
| SharedPool.PoolActor.Bootstrapping | src/main/java/io/github/evacchi/Actor.java:46-48 | an untyped actor starts with the bootstrap behaviour, an empty mailbox and `on == 0` |
| SharedPool.PoolActor.Async | src/main/java/io/github/evacchi/Actor.java:53-56 | a task is submitted exactly when the mailbox is non-empty and `on` moves from 0 to 1; a rejected submission resets `on` to 0 and rethrows |
| SharedPool.PoolActor.Tell | src/main/java/io/github/evacchi/Actor.java:49 | the message is appended at the tail, the behaviour is untouched, the same address is returned, and afterwards a non-empty mailbox has a task unless the submission threw |
| SharedPool.PoolActor.StartTask | src/main/java/io/github/evacchi/Actor.java:51 | at most one message, the head, is polled; the behaviour becomes `behavior.apply(m).apply(behavior)` and stays the same when the mailbox was empty or the behaviour threw |
| SharedPool.PoolActor.FinishTask | src/main/java/io/github/evacchi/Actor.java:52 | `on` is reset and the task resubmitted exactly when messages remain, so none is stranded unless the submission throws |
| SharedPool.PoolActor.Run | src/main/java/io/github/evacchi/TypedActor.java:51-54 | one run processes the head of the mailbox, if any, and leaves at most one task, which exists whenever messages remain |
| SharedPool.ActorOf | src/main/java/io/github/evacchi/Actor.java:43-58 | `actorOf` returns an actor whose only mailbox entry is its own address, with one task submitted |
| DedicatedThread.LoomActor.constructor | src/main/java/io/github/evacchi/LoomActor.java:48-67 | `actorOf` hands the runnable to the executor once and returns it with an empty mailbox |
| DedicatedThread.LoomActor.Tell | src/main/java/io/github/evacchi/LoomActor.java:52 | `tell` only appends at the tail and returns the same address; nothing is scheduled |
| DedicatedThread.LoomActor.Start | src/main/java/io/github/evacchi/LoomActor.java:54 | the initial behaviour is built once, before the loop |
| DedicatedThread.LoomActor.Take | src/main/java/io/github/evacchi/TypedLoomActor.java:55-62 | one iteration takes the head and applies it; an interrupt ends the loop and changes nothing else; an exception from the behaviour ends the loop |
| DedicatedThread.LoomActor.RunUntilBlocked | src/main/java/io/github/evacchi/LoomActor.java:55-63 | the loop consumes a prefix of the mailbox in FIFO order, its behaviour is the fold of that prefix, and it stops only when the take would block or a behaviour threw |
| Text.IndexOf | src/main/java/io/github/evacchi/asyncchat/ChannelActor.java:42 | `indexOf` is -1 exactly when the character is absent, and otherwise is its first position |
| Text.Trim | src/main/java/io/github/evacchi/asyncchat/ChannelActor.java:45 | `trim` removes only characters at or below U+0020, from both ends, and leaves a contiguous slice that neither starts nor ends with one |
| Framing.SplitFirstLine | src/main/java/io/github/evacchi/asyncchat/AsyncChannelActor.java:65-73 | no line exactly when there is no newline; a line is the text before the first newline; the cut falls short exactly when that newline is the last character |
| Framing.FirstNewlineAfter | src/main/java/io/github/evacchi/asyncchat/AsyncChannelActor.java:66 | the first newline of `l + "\n" + tail` is at the end of `l` when `l` has none |
| Framing.CharacterAfterNewlineDropped | src/main/java/io/github/evacchi/asyncchat/AsyncChannelActor.java:68-69 | `l + "\n" + x + rest` emits `l` and keeps `rest` trimmed: the character after the newline is lost |
| Framing.FinalNewlineCutsShort | src/main/java/io/github/evacchi/asyncchat/AsyncChannelActor.java:69 | a newline as the last character makes `substring(eol + 2)` go out of bounds |
| ChannelActor.SocketHandler | src/main/java/io/github/evacchi/asyncchat/ChannelActor.java:40-59 | only unrecognised messages throw, a read never does, and each message sends at most one line |
| ChannelActor.Handler | src/main/java/io/github/evacchi/asyncchat/ChannelActor.java:32-34 | the created actor becomes the socket handler with an empty buffer on an `Address` message (in every run its own, which `actorOf` tells first), stays on any message that is not an address before that, and then runs `socketHandler` in every state |
| ChannelActor.WriteKeepsBuffer | src/main/java/io/github/evacchi/asyncchat/ChannelActor.java:54-57 | a `WriteLine` writes the payload followed by a newline, stays, and leaves the buffer unchanged |
| ChannelActor.StartsEmpty | src/main/java/io/github/evacchi/asyncchat/ChannelActor.java:32-34 | once the actor has its address, the handler runs with an empty buffer |
| ChannelActor.AccumulateStep | src/main/java/io/github/evacchi/asyncchat/ChannelActor.java:49-51 | a read without a newline is appended to the buffer and sends nothing |
| ChannelActor.ReadsAccumulate | src/main/java/io/github/evacchi/asyncchat/ChannelActor.java:42-51 | any number of reads without a newline concatenate onto the buffer, whatever the buffer holds, because only the incoming content is searched |
| ChannelActor.LineAssembledAcrossReads | src/main/java/io/github/evacchi/asyncchat/ChannelActor.java:45-46 | a line split over several reads is sent once, trimmed, when its newline arrives |
| ChannelActor.ReadWithNewline | src/main/java/io/github/evacchi/asyncchat/ChannelActor.java:42-48 | a read with a newline sends the trimmed buffer plus prefix and keeps the content from two past the newline, clamped to the end |
| AsyncChannelActor.Idle | src/main/java/io/github/evacchi/asyncchat/AsyncChannelActor.java:55-76 | unrecognised messages throw and send nothing; a read throws, after telling its line, exactly when the first newline is the last character; at most one line per message |
| AsyncChannelActor.Handler | src/main/java/io/github/evacchi/asyncchat/ChatClient.java:82 | the created actor becomes `idle` with an empty accumulator on an `Address` message (in every run its own, which `actorOf` tells first), stays on any message that is not an address before that, and then runs `idle` in every state |
| AsyncChannelActor.WriteKeepsAccumulator | src/main/java/io/github/evacchi/asyncchat/AsyncChannelActor.java:57-63 | a `WriteLine` writes the payload followed by a newline, stays, and leaves the accumulator unchanged |
| AsyncChannelActor.StartsEmpty | src/main/java/io/github/evacchi/asyncchat/ChatClient.java:82 | the actor created with `idle(ca, self, channel, "")` runs with an empty accumulator |
| AsyncChannelActor.PoisonPillIsFinal | src/main/java/io/github/evacchi/asyncchat/AsyncChannelActor.java:56 | after a `PoisonPill` nothing the actor receives has any effect |
| AsyncChannelActor.PartialLineDiscarded | src/main/java/io/github/evacchi/asyncchat/AsyncChannelActor.java:71-72 | a read that completes no line resets the accumulator to empty, dropping the partial text |
| AsyncChannelActor.LineThenRemainder | src/main/java/io/github/evacchi/asyncchat/AsyncChannelActor.java:65-70 | a read that completes a line tells the untrimmed line and keeps the trimmed text after the character following the newline |
| AsyncChannelActor.FinalNewlineThrows | src/main/java/io/github/evacchi/asyncchat/AsyncChannelActor.java:68-69 | a newline as the last character tells the line and then throws, so the accumulator is not replaced |
| ChannelsActor.Accumulate | src/main/java/io/github/evacchi/asyncchat/Channels.java:95-109 | unrecognised messages throw and send nothing; a read throws, after telling its line, exactly when the first newline is the last character; at most one line per message |
| ChannelsActor.Handler | src/main/java/io/github/evacchi/asyncchat/Channels.java:87-89 | the created actor becomes `accumulate` with an empty accumulator on an `Address` message (in every run its own, which `actorOf` tells first), stays on any message that is not an address before that, and then runs `accumulate` in every state |
| ChannelsActor.StartsEmpty | src/main/java/io/github/evacchi/asyncchat/Channels.java:87-89 | `socket` is the accumulator in its empty state |
| ChannelsActor.WriteKeepsAccumulator | src/main/java/io/github/evacchi/asyncchat/Channels.java:104-107 | a `WriteLine` writes the payload followed by a newline and leaves the accumulator unchanged |
| ChannelsActor.PartialLineDiscarded | src/main/java/io/github/evacchi/asyncchat/Channels.java:102 | a read that leaves no newline in `acc + content` returns to `socket` (accumulator `""`) from any accumulator and tells nothing |
| ChannelsActor.SplitLineLost | src/main/java/io/github/evacchi/asyncchat/Channels.java:102 | from any accumulator, a newline-free read is forgotten: the next read is handled as from `socket`, so a line split over two reads is never told |
| ChannelsActor.LineThenRemainder | src/main/java/io/github/evacchi/asyncchat/Channels.java:97-101 | a read that completes a line tells the untrimmed line and keeps the trimmed text after the character following the newline |
| ChannelsActor.FinalNewlineThrows | src/main/java/io/github/evacchi/asyncchat/Channels.java:100-101 | a newline as the last character tells the line and then throws, so the accumulator is not replaced |
| Coins.NewCoinAsWritten | src/main/java/io/github/evacchi/typed/examples/VendingMachineAlt.java:16-21 | the coin constructor as written makes a coin for every amount and keeps the amount it is given |
| Coins.AsWrittenAdmitsAnyAmount | src/main/java/io/github/evacchi/typed/examples/VendingMachineAlt.java:18-19 | the guard as written lets every amount through, 0, -5 and 250 among them, so invalid coins exist |
| Coins.BelowUntilLastPrefixes | src/main/java/io/github/evacchi/typed/examples/VendingMachineAlt.java:43-52 | "every coin but the last leaves the running total below the price" holds exactly when every proper non-empty prefix sum stays below it |
| Coins.NewCoin | src/main/java/io/github/evacchi/typed/examples/VendingMachine.java:16-21 | the corrected constructor makes a coin exactly for amounts 1 to 100 |
| VendingAlt.Machine | src/main/java/io/github/evacchi/typed/examples/VendingMachineAlt.java:26 | the typed actor has no bootstrap message and runs the machine's behaviour in every state |
| VendingAlt.Step | src/main/java/io/github/evacchi/typed/examples/VendingMachineAlt.java:33-66 | the machine never throws, and acts exactly on a choice made while vending |
| VendingAlt.Ignored | src/main/java/io/github/evacchi/typed/examples/VendingMachineAlt.java:54-64 | a message the current state does not wait for leaves it unchanged and sends nothing |
| VendingAlt.Collect | src/main/java/io/github/evacchi/typed/examples/VendingMachineAlt.java:43-52 | coins that keep the total below the price until the last one lead from `waitCoin` to `vend` with change = counter + sum - 100, sending nothing |
| VendingAlt.Purchase | src/main/java/io/github/evacchi/typed/examples/VendingMachineAlt.java:33-66 | a purchase vends the product once, releases exactly sum - 100, and returns to `initial` |
| VendingAlt.DemoRun | src/main/java/io/github/evacchi/TypedActor.java:168-211 | coins 50, 40, 30 and "Chocolate" (DemoVending, and VendingMachineAlt's `main`) vend once with change 20 and end in `initial` |
| VendingAlt.OversizedCoinAsWritten | src/main/java/io/github/evacchi/typed/examples/VendingMachineAlt.java:24-32 | with the guard as written, 50 then 250 releases a change of 200 |
| VendingAlt.ChangeBounded | src/main/java/io/github/evacchi/typed/examples/VendingMachineAlt.java:48-62 | with valid coins every vend is paired with one change release between 0 and 100 |
| Vending.Machine | src/main/java/io/github/evacchi/typed/examples/VendingMachine.java:30 | the typed actor has no bootstrap message and runs the machine's behaviour in every state |
| Vending.PickerProgram | src/main/java/io/github/evacchi/typed/examples/VendingMachine.java:31 | the picker actor, on any product, vends it, reports `Vended(product)` to the machine and stays |
| Vending.Step | src/main/java/io/github/evacchi/typed/examples/VendingMachine.java:41-71 | the machine never throws, and sends exactly on a choice made while vending |
| Vending.Ignored | src/main/java/io/github/evacchi/typed/examples/VendingMachine.java:57-69 | a message the current state does not wait for leaves it unchanged and sends nothing |
| Vending.ItemPicker | src/main/java/io/github/evacchi/typed/examples/VendingMachine.java:73-77 | the picker vends the product, reports exactly one `Vended(product)` and stays; `Vending.PickerRoundTrip` takes that report back to the machine |
| Vending.Collect | src/main/java/io/github/evacchi/typed/examples/VendingMachine.java:52-56 | coins that keep the total below the price until the last one lead from `waitCoin` to `vend(total)` with the whole amount paid, sending nothing |
| Vending.OrdersPairs | src/main/java/io/github/evacchi/typed/examples/VendingMachine.java:63-67 | `k` choices produce `2k` outputs: the `i`-th pick is the `i`-th product, and each is followed by a release of total - 100 |
| Vending.RepeatedChoices | src/main/java/io/github/evacchi/typed/examples/VendingMachine.java:62-70 | choices before `Vended` keep the machine in `vend` and release the change each time |
| Vending.PickerRoundTrip | src/main/java/io/github/evacchi/typed/examples/VendingMachine.java:62-77 | from any `vend(total)`, the product the machine tells the picker is vended, and the picker's `Vended` report returns the machine to `initial` with no further output |
| Vending.TwoActorPurchase | src/main/java/io/github/evacchi/typed/examples/VendingMachine.java:41-77 | across both actors, coins and a choice release exactly sum - 100 once, the picker vends the product once, and its report returns the machine to `initial` |
| Vending.Purchase | src/main/java/io/github/evacchi/typed/examples/VendingMachine.java:41-70 | coins, a choice and the picker's `Vended` release exactly sum - 100 once and return to `initial` |
| Vending.DemoRun | src/main/java/io/github/evacchi/typed/examples/VendingMachine.java:33-39 | the `main` run releases a change of 20, the picker vends "Chocolate", and its reply returns the machine to `initial` |
| Vending.ChangeBounded | src/main/java/io/github/evacchi/typed/examples/VendingMachine.java:53-65 | with valid coins the total in `vend` is between 100 and 200, and every pick is paired with a change between 0 and 100 |
| PingPong.Ponger | src/main/java/io/github/evacchi/typed/examples/PingPong.java:28-38 | below 10 the ponger answers the sender with a plain pong and becomes counter + 1; from 10 on it answers with a deadly pong and dies (also Demo2's `pongerBehavior`) |
| PingPong.Pinger | src/main/java/io/github/evacchi/typed/examples/PingPong.java:39-52 | the pinger answers every pong with exactly one ping to its sender, stays on a plain pong and dies on a deadly one |
| PingPong.PongerProgram | src/main/java/io/github/evacchi/typed/examples/PingPong.java:24 | the typed ponger actor has no bootstrap message and runs `pongerBehavior` in every state |
| PingPong.PingerProgram | src/main/java/io/github/evacchi/typed/examples/PingPong.java:25 | the typed pinger actor has no bootstrap message and runs `pingerBehavior` in every state |
| PingPong.Start | src/main/java/io/github/evacchi/typed/examples/PingPong.java:22-26 | `main` creates the ponger at counter 0 and the pinger, and the only message in flight is the pinger's ping to the ponger |
| PingPong.Step | src/main/java/io/github/evacchi/typed/examples/PingPong.java:28-52 | the oldest message in flight is processed by its addressee, whose behaviour becomes the delivered one, while the other actor is unchanged; the addressee's tells to the other actor join the end of the queue |
| PingPong.Run | src/main/java/io/github/evacchi/typed/examples/PingPong.java:22-27 | the delivered messages only grow, by at most one per step, and the run stops short only when nothing is left in flight; an idle world does not change |
| PingPong.RallyCounts | src/main/java/io/github/evacchi/typed/examples/PingPong.java:28-37 | from counter `k` the rally has 23 - 2k messages: 10 - k plain pongs, exactly one deadly pong and 12 - k pings |
| PingPong.RallyFrom | src/main/java/io/github/evacchi/typed/examples/PingPong.java:28-52 | from counter `k` and one ping in flight, the exchange ends with both actors dead and nothing in flight |
| PingPong.MainRunEnds | src/main/java/io/github/evacchi/typed/examples/PingPong.java:22-27 | `main` ends with both actors dead and nothing in flight, having delivered the whole rally from counter 0 |
| PingPong.MainRunCounts | src/main/java/io/github/evacchi/typed/examples/PingPong.java:22-27 | `main` delivers exactly 10 plain pongs, 1 deadly pong and 12 pings, the last dropped by the dead ponger |
| PingPong.MainRunQuiescent | src/main/java/io/github/evacchi/typed/examples/PingPong.java:22-27 | once `main`'s exchange is over, no further step changes anything |
| PingPong.StatefulPonger.constructor | src/main/java/io/github/evacchi/TypedActor.java:137-138 | a new stateful ponger has counter 0 |
| PingPong.StatefulPonger.Apply | src/main/java/io/github/evacchi/TypedActor.java:139-153 | the stateful ponger sends what the closure ponger at the same counter sends, and its incremented counter is the one that ponger becomes; at 10 both die |
| ChatServer.Broadcast | src/main/java/io/github/evacchi/loomchat/ChatServer.java:64-65 | one `WriteLine(payload)` per registered client, in list order |
| ChatServer.BroadcastEach | src/main/java/io/github/evacchi/typed/asyncchat/ChatServer.java:99-100 | the `forEach` loop sends exactly the broadcast |
| ChatServer.ClientManager.constructor | src/main/java/io/github/evacchi/typed/asyncchat/ChatServer.java:92-94 | a new manager has no clients and has sent nothing |
| ChatServer.ClientManager.Apply | src/main/java/io/github/evacchi/typed/asyncchat/ChatServer.java:96-103 | `ClientConnected` appends its address and sends nothing; `LineRead` broadcasts to the unchanged list; always `Stay`; the list is always the registered clients in order |
| ChatServer.ClientManager.ApplyAny | src/main/java/io/github/evacchi/asyncchat/ChatServer.java:75-86 | the untyped manager (also loomchat's) throws exactly on an unrecognised message, changing nothing |
| ChatServer.Manage | src/main/java/io/github/evacchi/typed/loomchat/ChatServer.java:64-79 | the manager never throws |
| ChatServer.TypedLoomManager | src/main/java/io/github/evacchi/typed/loomchat/ChatServer.java:50-51 | the typed manager actor has no bootstrap message and runs `clientManager` in every state |
| ChatServer.TypedLoomManagerTracksHistory | src/main/java/io/github/evacchi/typed/loomchat/ChatServer.java:51-79 | after any history the `Become`-threaded manager holds exactly the registered clients and has sent exactly what the manager with a mutable list sends; a line before any connection reaches nobody |
| ChatServer.Accept | src/main/java/io/github/evacchi/asyncchat/ChatServer.java:62-72 | a connection spawns one channel actor at a fresh address, tells the manager one `ClientConnected` with it and re-arms; anything else throws without telling |
| ChatServer.AcceptorProgram | src/main/java/io/github/evacchi/typed/asyncchat/ChatServer.java:70-76 | the acceptor actor has no bootstrap message and runs the connection handler in every state |
| ChatServer.AcceptorReplay | src/main/java/io/github/evacchi/typed/asyncchat/ChatServer.java:78-85 | `k` connections advance the acceptor by `k` and tell, in order, a spawn and a registration per connection |
| ChatServer.AcceptedClientsRegistered | src/main/java/io/github/evacchi/asyncchat/ChatServer.java:63-69 | the clients the acceptor registers are the addresses of the spawned channel actors, in acceptance order, and no two are equal |

## Left out

- Real concurrency is not modelled: threads, CAS atomicity, memory visibility of `behavior`, and the executor's own queue. The engines are sequential interleavings of atomic steps, and the executor is two counters.
- The printing done by `Die`'s drop behaviour, by the examples and by the engines is not modelled.
- `e.printStackTrace()` in the dedicated-thread loop is not modelled.
- Socket I/O is not modelled:
  - the read each socket behaviour re-arms when it is built;
  - the `channel.isOpen()` check that tells a `PoisonPill`;
  - the write completion handlers.

  A completed read is a message carrying its text. A failed read or write is a `PoisonPill` message. A write is an output.
- `new String(buf.array())` is not modelled: its NUL padding, the 2048-byte buffers and charset decoding are outside the model. Read contents are strings.
- Integer arithmetic is unbounded; Java's 32-bit `int` addition wraps. The ping counter never exceeds 10, and with valid coins (1 to 100) no sum exceeds 200, so neither can wrap there.
- VendingAlt.Step, VendingAlt.Collect, VendingAlt.Purchase: they describe the program only while every running sum `counter + c.amount()` stays within the 32-bit `int` range. The as-written coin guard admits any `int`, and Java then wraps: two coins of 2147483647 make `counter + c.amount()` equal -2, which is below 100, so the machine stays in `waitCoin` where the model vends.
- Vending.Step, Vending.Collect, Vending.Purchase, Vending.TwoActorPurchase: the same holds for `accumulator + c.amount()`. These lemmas describe the program only while running sums stay within the 32-bit `int` range.
- Strings are sequences of Unicode scalar values, so the model indexes by code point. Java's `indexOf`, `substring` and `length` count UTF-16 code units. After a newline followed by a supplementary character (an emoji, say), Java's `substring(eol + 2)` drops only the high surrogate and keeps a lone low surrogate, while the model drops the whole character. `Framing.CharacterAfterNewlineDropped`, `ChannelActor.ReadWithNewline` and the `LineThenRemainder` lemmas hold for Java only when the character after the newline is in the Basic Multilingual Plane.
- `tell(null)` is not modelled. Both mailboxes (`ConcurrentLinkedQueue` and `LinkedBlockingQueue`) reject a null message with a `NullPointerException`, and the model's message types have no null value.
- Actor addresses are plain identifiers. The acceptor takes fresh addresses from a counter, standing for the distinct objects `actorOf` returns.
- The ping-pong run places the messages to both actors in one global FIFO queue. That gives the only order possible here, because exactly one message is in flight at any time.
- `Demo1` and `HelloWorld` (behave once, then `Die`) are covered by `Algebra.DieIsFinal` and not modelled separately.
- The `releaseChange` body of `VendingMachine.java` does not compile. The model only records the change amount passed to it.
- `Weather.java`, the benchmark, the JSON chat clients, the blocking `chat` package and the reader/writer actors of `loomchat` and `typed/loomchat` are not part of this model (HTTP, Jackson and blocking stream I/O).
- The main loops of the chat servers that accept sockets and wire actors together are not part of this model. Only the acceptor behaviours and the client managers are modelled.
- ChatServer.AcceptorProgram: it is the acceptor once running. The untyped acceptor of asyncchat/ChatServer.java:51-52 first passes through the bootstrap behaviour, which `Algebra.Bootstrap` covers generically; that step is not repeated here.
- ChatServer.Manage: its own contract only says it never throws. Its effect on the client list and its sends are stated over whole histories by `ChatServer.TypedLoomManagerTracksHistory`.

## Findings

| source | as written | input that shows it | evidently intended | confidence | as-written member | corrected member |
|---|---|---|---|---|---|---|
| src/main/java/io/github/evacchi/typed/examples/VendingMachineAlt.java:18-19 | `if (amount < 1 && amount > 100)` can never hold, so every amount makes a coin (the same guard is in typed/examples/VendingMachine.java and TypedActor.java's DemoVending) | `new Coin(250)` after `new Coin(50)`, then a choice, releases a change of 200; `new Coin(0)` and `new Coin(-5)` are accepted too | `amount < 1 \|\| amount > 100`: coins of 1 to 100 only, which keeps the change between 0 and 100 | high (guard is unsatisfiable); not executed | Coins.AsWrittenAdmitsAnyAmount | Coins.NewCoin |
| src/main/java/io/github/evacchi/typed/examples/VendingMachineAlt.java:18-19 | with oversized coins the change released is larger than any coin | coins 50 and 250, then "Chocolate" | the change is at most one coin (100) | high; not executed | VendingAlt.OversizedCoinAsWritten | VendingAlt.ChangeBounded |
