/**
 * The line framing shared by AsyncChannelActor.idle and Channels.Actor.accumulate:
 * the accumulator and the newly read content are concatenated, the text before
 * the first newline is emitted as a line, and the text from two characters past
 * the newline on, trimmed, becomes the new accumulator.
 */
module Framing {
  import opened Text

  const END_LINE: char := '\n'

  datatype Split =
    | NoNewline                           // no END_LINE: nothing to emit
    | Line(line: string, rest: string)    // emit `line`, keep `rest`
    | CutShort(line: string)              // `line` is emitted, then `substring(eol + 2)` throws

  /** How a concatenated `line` is cut at its first END_LINE. */
  function SplitFirstLine(line: string): (r: Split)
    ensures r.NoNewline? <==> END_LINE !in line
    ensures !r.NoNewline? ==> END_LINE !in r.line && |r.line| < |line| && line[..|r.line| + 1] == r.line + [END_LINE]
    ensures r.CutShort? <==> END_LINE in line && IndexOf(line, END_LINE) == |line| - 1
  {
    var eol := IndexOf(line, END_LINE);
    if eol < 0 then NoNewline
    else if eol + 2 > |line| then CutShort(line[..eol])
    else Line(line[..eol], Trim(line[eol + 2..]))
  }

  /** The first END_LINE of `l + [END_LINE] + tail` is the one after `l`. */
  lemma {:induction false} FirstNewlineAfter(l: string, tail: string)
    requires END_LINE !in l
    ensures IndexOf(l + [END_LINE] + tail, END_LINE) == |l|
  {
    var s := l + [END_LINE] + tail;
    assert s[|l|] == END_LINE;
  }

  /**
   * The character right after the newline is lost: `l + "\n" + x + rest` emits
   * `l` and keeps `rest`, trimmed.
   */
  lemma {:induction false} CharacterAfterNewlineDropped(l: string, x: char, rest: string)
    requires END_LINE !in l
    ensures SplitFirstLine(l + [END_LINE, x] + rest) == Line(l, Trim(rest))
  {
    var s := l + [END_LINE, x] + rest;
    assert s == l + [END_LINE] + ([x] + rest);
    FirstNewlineAfter(l, [x] + rest);
    assert s[..|l|] == l;
    assert s[|l| + 2..] == rest;
  }

  /** A newline as the very last character makes `substring(eol + 2)` go out of bounds. */
  lemma {:induction false} FinalNewlineCutsShort(l: string)
    requires END_LINE !in l
    ensures SplitFirstLine(l + [END_LINE]) == CutShort(l)
  {
    FirstNewlineAfter(l, []);
    assert l + [END_LINE] + [] == l + [END_LINE];
    assert (l + [END_LINE])[..|l|] == l;
  }
}
