/**
 * asyncchat/ChannelActor.java: `socketHandler`, the behaviour of the actor that
 * owns one client socket, with the buffer `buff` it carries between reads.
 * Each read of the socket arrives as a `ReadBuffer`; the read itself and the
 * socket write are outside the model (a read is the given content, a write
 * the `Write` output).
 */
module ChannelActor {
  import opened Algebra
  import opened Text
  import opened Framing

  datatype Msg =
    | ReadBuffer(content: string)
    | WriteLine(payload: string)
    | AddressMsg(addr: Address)  // an Address told as a message, as the untyped engine does at creation
    | Unrecognised               // any other object

  datatype Out =
    | LineRead(payload: string)  // told to the client manager
    | Write(bytes: string)       // written to the socket

  function Min(a: int, b: int): int
  {
    if a <= b then a else b
  }

  /** The behaviour `socketHandler(self, clientManager, channel, buff)`. */
  function SocketHandler(buff: string, msg: Msg): (r: Reaction<string, Out>)
    ensures r.Fault? <==> msg.AddressMsg? || msg.Unrecognised?
    ensures r.Fault? ==> r.sent == []
    ensures |r.sent| <= 1
  {
    match msg
    case ReadBuffer(content) =>
      var eol := IndexOf(content, '\n');
      if eol >= 0 then
        Handled(Become(Live(content[Min(eol + 2, |content|)..])), [LineRead(Trim(buff + content[..eol]))])
      else
        Handled(Become(Live(buff + content)), [])
    case WriteLine(payload) => Handled(Stay, [Write(payload + ['\n'])])
    case AddressMsg(_) => Fault([])
    case Unrecognised => Fault([])
  }

  /**
   * The actor that `actorOf(ca -> socketHandler(ca, parent, channel))`
   * creates: on an address (in every run its own, which `actorOf` tells first)
   * it becomes the handler with an empty buffer.
   */
  function Handler(): (r: Program<Msg, string, Out>)
    ensures forall self :: Deliver(r, Booting, AddressMsg(self)) == (Live(""), [])
    ensures forall m: Msg :: !m.AddressMsg? ==> Deliver(r, Booting, m) == (Booting, [])
    ensures forall buff, m :: Apply(r, Live(buff), m) == SocketHandler(buff, m)
  {
    Program((buff, m) => SocketHandler(buff, m), (m: Msg) => if m.AddressMsg? then Some("") else None)
  }

  function Reads(contents: seq<string>): seq<Msg>
    decreases |contents|
  {
    if contents == [] then [] else Reads(contents[..|contents| - 1]) + [ReadBuffer(contents[|contents| - 1])]
  }

  /** None of the reads contains a newline. */
  predicate Unbroken(contents: seq<string>)
    decreases |contents|
  {
    contents == [] || (Unbroken(contents[..|contents| - 1]) && '\n' !in contents[|contents| - 1])
  }

  function Concat(contents: seq<string>): string
    decreases |contents|
  {
    if contents == [] then "" else Concat(contents[..|contents| - 1]) + contents[|contents| - 1]
  }

  /** Appending the reads one by one onto `buff` is appending their concatenation. */
  lemma ConcatSnoc(buff: string, contents: seq<string>)
    requires contents != []
    ensures buff + Concat(contents[..|contents| - 1]) + contents[|contents| - 1] == buff + Concat(contents)
  {
    var init, last := Concat(contents[..|contents| - 1]), contents[|contents| - 1];
    assert Concat(contents) == init + last;
    assert buff + init + last == buff + (init + last);
  }

  /** Once created, the handler's buffer is empty. */
  lemma {:induction false} StartsEmpty(self: Address, ms: seq<Msg>)
    ensures Replay(Handler(), Booting, [AddressMsg(self)] + ms) == Replay(Handler(), Live(""), ms)
  {
    Bootstrap(Handler(), AddressMsg(self), ms);
  }

  /** One read without a newline is appended to the buffer. */
  lemma {:induction false} AccumulateStep(buff: string, content: string)
    requires '\n' !in content
    ensures Deliver(Handler(), Live(buff), ReadBuffer(content)) == (Live(buff + content), [])
  {
    assert IndexOf(content, '\n') == -1;
  }

  /**
   * Reads without a newline only accumulate, whatever the buffer holds: the
   * newline is searched for in the incoming content, never in the buffer.
   */
  lemma {:induction false} ReadsAccumulate(buff: string, contents: seq<string>)
    requires Unbroken(contents)
    ensures Replay(Handler(), Live(buff), Reads(contents)) == (Live(buff + Concat(contents)), [])
    decreases |contents|
  {
    if contents == [] {
      assert buff + "" == buff;
    } else {
      var n := |contents| - 1;
      var init, last := contents[..n], contents[n];
      var acc := buff + Concat(init);
      var none: seq<Out> := [];
      assert Reads(contents) == Reads(init) + [ReadBuffer(last)];
      ConcatSnoc(buff, contents);
      ReadsAccumulate(buff, init);
      AccumulateStep(acc, last);
      ReplayStep(Handler(), Live(buff), Reads(init), ReadBuffer(last), Live(acc), none, Live(acc + last), none);
      assert none + none == none;
    }
  }

  /** A `WriteLine` writes the payload and a newline to the socket and keeps the buffer. */
  lemma WriteKeepsBuffer(buff: string, payload: string)
    ensures Deliver(Handler(), Live(buff), WriteLine(payload)) == (Live(buff), [Write(payload + ['\n'])])
  {
  }

  /**
   * A line split over several reads is emitted once, when its newline
   * arrives: the buffer, the earlier reads and the prefix of the last read,
   * trimmed, as exactly one `LineRead`.
   */
  lemma {:induction false} LineAssembledAcrossReads(buff: string, contents: seq<string>, last: string)
    requires Unbroken(contents)
    requires '\n' in last
    ensures Replay(Handler(), Live(buff), Reads(contents) + [ReadBuffer(last)]).1 ==
      [LineRead(Trim(buff + Concat(contents) + last[..IndexOf(last, '\n')]))]
  {
    ReadsAccumulate(buff, contents);
    ReplayAppend(Handler(), Live(buff), Reads(contents), [ReadBuffer(last)]);
    assert [ReadBuffer(last)][..0] == [];
  }

  /**
   * The new buffer starts two characters past the newline, so the character
   * after it is lost; the `min` keeps the cut in bounds when the newline ends
   * the content, so a read never throws.
   */
  lemma {:induction false} ReadWithNewline(buff: string, l: string, tail: string)
    requires '\n' !in l
    ensures SocketHandler(buff, ReadBuffer(l + ['\n'] + tail)) ==
      Handled(Become(Live(if tail == [] then [] else tail[1..])), [LineRead(Trim(buff + l))])
  {
    var s := l + ['\n'] + tail;
    FirstNewlineAfter(l, tail);
    assert s[..|l|] == l;
    assert s[Min(|l| + 2, |s|)..] == if tail == [] then [] else tail[1..];
  }
}
