/**
 * asyncchat/Channels.java, interface `Actor`: `socket` and `accumulate`, the
 * behaviour of an actor that owns one `Channels.Socket` and carries an
 * accumulator `acc` between reads. A completed read arrives as a `ReadBuffer`;
 * `Socket.write(line)` writes `line` followed by a newline, which is the
 * `Write` output.
 */
module ChannelsActor {
  import opened Algebra
  import opened Text
  import opened Framing

  datatype Msg =
    | ReadBuffer(content: string)
    | WriteLine(payload: string)
    | AddressMsg(addr: Address)  // an Address told as a message, as the untyped engine does at creation
    | Unrecognised               // any other object

  datatype Out =
    | LineRead(payload: string)  // told to the parent
    | Write(bytes: string)       // written to the socket

  /** The behaviour `accumulate(self, parent, channel, acc)`; `socket` is `accumulate` with `acc == ""`. */
  function Accumulate(acc: string, msg: Msg): (r: Reaction<string, Out>)
    ensures r.Fault? && r.sent == [] <==> msg.AddressMsg? || msg.Unrecognised?
    ensures r.Fault? && r.sent != [] <==>
      (msg.ReadBuffer? && END_LINE in acc + msg.content && IndexOf(acc + msg.content, END_LINE) == |acc + msg.content| - 1)
    ensures |r.sent| <= 1
  {
    match msg
    case ReadBuffer(content) =>
      (match SplitFirstLine(acc + content)
       case NoNewline => Handled(Become(Live("")), [])
       case Line(line, rest) => Handled(Become(Live(rest)), [LineRead(line)])
       case CutShort(line) => Fault([LineRead(line)]))
    case WriteLine(payload) => Handled(Stay, [Write(payload + [END_LINE])])
    case AddressMsg(_) => Fault([])
    case Unrecognised => Fault([])
  }

  /** The actor `actorOf(self -> socket(self, parent, channel))` creates. */
  function Handler(): (r: Program<Msg, string, Out>)
    ensures forall self :: Deliver(r, Booting, AddressMsg(self)) == (Live(""), [])
    ensures forall m: Msg :: !m.AddressMsg? ==> Deliver(r, Booting, m) == (Booting, [])
    ensures forall acc, m :: Apply(r, Live(acc), m) == Accumulate(acc, m)
  {
    Program((acc, m) => Accumulate(acc, m), (m: Msg) => if m.AddressMsg? then Some("") else None)
  }

  /** `socket(...)` is the accumulator in its empty state. */
  lemma {:induction false} StartsEmpty(self: Address, ms: seq<Msg>)
    ensures Replay(Handler(), Booting, [AddressMsg(self)] + ms) == Replay(Handler(), Live(""), ms)
  {
    Bootstrap(Handler(), AddressMsg(self), ms);
  }

  /** Writes never change the accumulator and each writes exactly one line. */
  lemma {:induction false} WriteKeepsAccumulator(acc: string, payload: string)
    ensures Deliver(Handler(), Live(acc), WriteLine(payload)) == (Live(acc), [Write(payload + [END_LINE])])
  {
  }

  /** A read that completes no line returns to `socket(...)` from any accumulator: old and new text are dropped. */
  lemma {:induction false} PartialLineDiscarded(acc: string, content: string)
    requires END_LINE !in acc + content
    ensures Deliver(Handler(), Live(acc), ReadBuffer(content)) == (Live(""), [])
  {
  }

  /**
   * Hence a line split over two reads is never told to the parent: after the
   * first read only the second one counts, whatever was accumulated before.
   */
  lemma {:induction false} SplitLineLost(acc: string, first: string, second: string)
    requires END_LINE !in acc + first
    ensures Replay(Handler(), Live(acc), [ReadBuffer(first), ReadBuffer(second)]) ==
      Replay(Handler(), Live(""), [ReadBuffer(second)])
  {
    assert [ReadBuffer(first), ReadBuffer(second)] == [ReadBuffer(first)] + [ReadBuffer(second)];
    ReplayCons(Handler(), Live(acc), ReadBuffer(first), [ReadBuffer(second)]);
    PartialLineDiscarded(acc, first);
    assert [] + Replay(Handler(), Live(""), [ReadBuffer(second)]).1 == Replay(Handler(), Live(""), [ReadBuffer(second)]).1;
  }

  /**
   * A read that completes a line tells the parent the text before the first
   * newline (untrimmed) and keeps what follows the character after it, trimmed.
   */
  lemma {:induction false} LineThenRemainder(acc: string, content: string, l: string, x: char, rest: string)
    requires END_LINE !in l && acc + content == l + [END_LINE, x] + rest
    ensures Deliver(Handler(), Live(acc), ReadBuffer(content)) == (Live(Trim(rest)), [LineRead(l)])
  {
    CharacterAfterNewlineDropped(l, x, rest);
  }

  /**
   * A newline as the last character: the line is told to the parent, then
   * `substring(eol + 2)` throws, so the accumulator is left as it was.
   */
  lemma {:induction false} FinalNewlineThrows(acc: string, content: string, l: string)
    requires END_LINE !in l && acc + content == l + [END_LINE]
    ensures Apply(Handler(), Live(acc), ReadBuffer(content)) == Fault([LineRead(l)])
    ensures Deliver(Handler(), Live(acc), ReadBuffer(content)) == (Live(acc), [LineRead(l)])
  {
    FinalNewlineCutsShort(l);
  }
}
