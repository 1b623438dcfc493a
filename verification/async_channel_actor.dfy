/**
 * asyncchat/AsyncChannelActor.java: `idle`, the behaviour of an actor that
 * owns one socket and carries an accumulator `acc` between reads. Reading and
 * writing the socket are outside the model: a completed read arrives as a
 * `Buffer`, a failed read or write as a `PoisonPill`, and a write is the
 * `Write` output.
 */
module AsyncChannelActor {
  import opened Algebra
  import opened Text
  import opened Framing

  datatype Msg =
    | Buffer(content: string)
    | PoisonPill
    | WriteLine(payload: string)
    | AddressMsg(addr: Address)  // an Address told as a message, as the untyped engine does at creation
    | Unrecognised               // any other object

  datatype Out =
    | LineRead(payload: string)  // told to the parent
    | Write(bytes: string)       // written to the socket

  /** The behaviour `idle(self, parent, channel, acc)`. */
  function Idle(acc: string, msg: Msg): (r: Reaction<string, Out>)
    ensures r.Fault? && r.sent == [] <==> msg.AddressMsg? || msg.Unrecognised?
    ensures r.Fault? && r.sent != [] <==>
      (msg.Buffer? && END_LINE in acc + msg.content && IndexOf(acc + msg.content, END_LINE) == |acc + msg.content| - 1)
    ensures |r.sent| <= 1
  {
    match msg
    case PoisonPill => Handled(Die, [])
    case WriteLine(payload) => Handled(Stay, [Write(payload + [END_LINE])])
    case Buffer(content) =>
      (match SplitFirstLine(acc + content)
       case NoNewline => Handled(Become(Live("")), [])
       case Line(line, rest) => Handled(Become(Live(rest)), [LineRead(line)])
       case CutShort(line) => Fault([LineRead(line)]))
    case AddressMsg(_) => Fault([])
    case Unrecognised => Fault([])
  }

  /** The actor `actorOf(ca -> idle(ca, self, channel, ""))` creates. */
  function Handler(): (r: Program<Msg, string, Out>)
    ensures forall self :: Deliver(r, Booting, AddressMsg(self)) == (Live(""), [])
    ensures forall m: Msg :: !m.AddressMsg? ==> Deliver(r, Booting, m) == (Booting, [])
    ensures forall acc, m :: Apply(r, Live(acc), m) == Idle(acc, m)
  {
    Program((acc, m) => Idle(acc, m), (m: Msg) => if m.AddressMsg? then Some("") else None)
  }

  /** Once created, the accumulator is empty. */
  lemma {:induction false} StartsEmpty(self: Address, ms: seq<Msg>)
    ensures Replay(Handler(), Booting, [AddressMsg(self)] + ms) == Replay(Handler(), Live(""), ms)
  {
    Bootstrap(Handler(), AddressMsg(self), ms);
  }

  /** A `WriteLine` writes the payload and a newline to the socket and keeps the accumulator. */
  lemma WriteKeepsAccumulator(acc: string, payload: string)
    ensures Deliver(Handler(), Live(acc), WriteLine(payload)) == (Live(acc), [Write(payload + [END_LINE])])
  {
  }

  /** A `PoisonPill` kills the actor: nothing it receives afterwards has any effect. */
  lemma {:induction false} PoisonPillIsFinal(acc: string, ms: seq<Msg>)
    ensures Replay(Handler(), Live(acc), [PoisonPill] + ms) == (Dropping, [])
  {
    DieIsFinal(Handler(), Live(acc), PoisonPill, ms);
  }

  /**
   * A read that completes no line resets the accumulator to the empty string:
   * the partial text, both the old accumulator and the new content, is dropped.
   */
  lemma {:induction false} PartialLineDiscarded(acc: string, content: string)
    requires END_LINE !in acc + content
    ensures Deliver(Handler(), Live(acc), Buffer(content)) == (Live(""), [])
  {
  }

  /**
   * A read that completes a line tells the parent the text before the first
   * newline (untrimmed) and keeps what follows the character after it, trimmed.
   */
  lemma {:induction false} LineThenRemainder(acc: string, content: string, l: string, x: char, rest: string)
    requires END_LINE !in l && acc + content == l + [END_LINE, x] + rest
    ensures Deliver(Handler(), Live(acc), Buffer(content)) == (Live(Trim(rest)), [LineRead(l)])
  {
    CharacterAfterNewlineDropped(l, x, rest);
  }

  /**
   * A newline as the last character: the line is told to the parent, then
   * `substring(cr + 2)` throws, so the accumulator is left as it was.
   */
  lemma {:induction false} FinalNewlineThrows(acc: string, content: string, l: string)
    requires END_LINE !in l && acc + content == l + [END_LINE]
    ensures Apply(Handler(), Live(acc), Buffer(content)) == Fault([LineRead(l)])
    ensures Deliver(Handler(), Live(acc), Buffer(content)) == (Live(acc), [LineRead(l)])
  {
    FinalNewlineCutsShort(l);
  }
}
