/** The line transport both programs use. A connected socket is seen from one end as
    the lines still to arrive and the trace of what this end has sent and read;
    `read_line` takes the next line (without its newline) and `send_message` appends the
    formatted text. Framing (`Join`, `SplitLines`) relates the text one end writes to the
    lines the other end reads. */
module LineIO {

  datatype Option<T> = None | Some(value: T)

  /** One step of a connection, seen from one end. */
  datatype Event = Sent(text: string) | Received(line: string)

  /** The text one event writes, if it writes any. */
  function SentBy(e: Event): seq<string> {
    if e.Sent? then [e.text] else []
  }

  /** The line one event reads, if it reads one. */
  function ReadBy(e: Event): seq<string> {
    if e.Received? then [e.line] else []
  }

  /** The texts written, in order. */
  function Sends(trace: seq<Event>): (r: seq<string>)
    ensures |r| <= |trace|
  {
    if trace == [] then [] else SentBy(trace[0]) + Sends(trace[1..])
  }

  /** The lines read, in order. */
  function Reads(trace: seq<Event>): (r: seq<string>)
    ensures |r| <= |trace|
  {
    if trace == [] then [] else ReadBy(trace[0]) + Reads(trace[1..])
  }

  /** What short traces send and read, event by event. */
  lemma Trace1(a: Event)
    ensures Sends([a]) == SentBy(a) && Reads([a]) == ReadBy(a)
  {
  }

  lemma Trace2(a: Event, b: Event)
    ensures Sends([a, b]) == SentBy(a) + SentBy(b) && Reads([a, b]) == ReadBy(a) + ReadBy(b)
  {
  }

  lemma Trace3(a: Event, b: Event, c: Event)
    ensures Sends([a, b, c]) == SentBy(a) + (SentBy(b) + SentBy(c))
    ensures Reads([a, b, c]) == ReadBy(a) + (ReadBy(b) + ReadBy(c))
  {
    assert [a, b, c][1..] == [b, c];
    Trace2(b, c);
  }

  lemma Trace4(a: Event, b: Event, c: Event, d: Event)
    ensures Sends([a, b, c, d]) == SentBy(a) + (SentBy(b) + (SentBy(c) + SentBy(d)))
    ensures Reads([a, b, c, d]) == ReadBy(a) + (ReadBy(b) + (ReadBy(c) + ReadBy(d)))
  {
    assert [a, b, c, d][1..] == [b, c, d];
    Trace3(b, c, d);
  }

  /** A line as the protocol carries it: no newline inside. */
  predicate IsLine(s: string) {
    forall i :: 0 <= i < |s| ==> s[i] != '\n'
  }

  /** The byte stream produced by writing `texts` one after another. */
  function Join(texts: seq<string>): (r: string)
    ensures |texts| == 1 ==> r == texts[0]
  {
    if texts == [] then [] else texts[0] + Join(texts[1..])
  }

  /** Each line terminated by a newline, as `send_message(c, "%s\n", line)` writes it. */
  function Framed(lines: seq<string>): (r: seq<string>)
    ensures |r| == |lines|
    ensures forall i :: 0 <= i < |lines| ==> r[i] == lines[i] + "\n"
  {
    if lines == [] then [] else [lines[0] + "\n"] + Framed(lines[1..])
  }

  /** Position of the first newline in `s`, or `|s|` when there is none. */
  function NewlineAt(s: string): (i: nat)
    ensures i <= |s| && (i < |s| ==> s[i] == '\n')
    ensures IsLine(s[..i])
  {
    if s == [] then 0
    else if s[0] == '\n' then 0
    else
      var j := NewlineAt(s[1..]);
      assert s[..j + 1] == [s[0]] + s[1..][..j];
      1 + j
  }

  /** The lines a reader takes from a byte stream, each without its newline; a last
      fragment with no newline is delivered as a final line. */
  function SplitLines(text: string): (r: seq<string>)
    ensures forall i :: 0 <= i < |r| ==> IsLine(r[i])
    decreases |text|
  {
    if text == [] then []
    else
      var i := NewlineAt(text);
      if i == |text| then [text] else [text[..i]] + SplitLines(text[i + 1..])
  }

  /** Reading back what was written line by line gives the lines themselves. */
  lemma {:induction false} SplitFramed(lines: seq<string>)
    requires forall i :: 0 <= i < |lines| ==> IsLine(lines[i])
    ensures SplitLines(Join(Framed(lines))) == lines
    decreases |lines|
  {
    if lines != [] {
      var l, rest := lines[0], lines[1..];
      var text := Join(Framed(lines));
      assert Framed(lines)[1..] == Framed(rest);
      assert text == l + "\n" + Join(Framed(rest));
      NewlineAfterLine(l, Join(Framed(rest)));
      assert text[..|l|] == l;
      assert text[|l| + 1..] == Join(Framed(rest));
      SplitFramed(rest);
    }
  }

  lemma NewlineAfterLine(l: string, tail: string)
    requires IsLine(l)
    ensures NewlineAt(l + "\n" + tail) == |l|
  {
    var s := l + "\n" + tail;
    assert s[..|l|] == l && s[|l|] == '\n';
  }

  lemma JoinFramedCons(l: string, ls: seq<string>)
    ensures Join(Framed([l] + ls)) == l + "\n" + Join(Framed(ls))
  {
  }

  /** Conversely, a stream of whole lines is exactly the framing of the lines read from it. */
  lemma {:induction false} FramedSplit(text: string)
    requires text == [] || text[|text| - 1] == '\n'
    ensures Join(Framed(SplitLines(text))) == text
    decreases |text|
  {
    if text != [] {
      var i := NewlineAt(text);
      var line, rest := text[..i], text[i + 1..];
      assert rest == [] || rest[|rest| - 1] == text[|text| - 1];
      FramedSplit(rest);
      JoinFramedCons(line, SplitLines(rest));
      assert SplitLines(text) == [line] + SplitLines(rest);
      CutAtNewline(text, i);
    }
  }

  lemma CutAtNewline(s: string, i: nat)
    requires i < |s| && s[i] == '\n'
    ensures s == s[..i] + "\n" + s[i + 1..]
  {
  }

  // ---------------------------------------------------------------- one read

  /** The text the read after `j` earlier ones leaves in the buffer: the peer's line, or
      `unread` once the peer has sent nothing more. */
  function LineAt(pending: seq<string>, j: nat, unread: string): string {
    if j < |pending| then pending[j] else unread
  }

  /** What one read records: the line it takes, if one is pending. */
  function Receipt(pending: seq<string>): seq<Event> {
    if pending == [] then [] else [Received(pending[0])]
  }

  /** The lines still pending after one read. */
  function Rest(pending: seq<string>): (r: seq<string>)
    ensures r == pending[if pending == [] then 0 else 1..]
  {
    if pending == [] then [] else pending[1..]
  }

  /** One end of a connected socket. */
  class Channel {
    /** Lines the peer has sent that this end has not read yet. */
    var incoming: seq<string>
    /** What this end has done on the connection, oldest first. */
    var trace: seq<Event>

    constructor (pending: seq<string>)
      ensures incoming == pending && trace == []
    {
      incoming := pending;
      trace := [];
    }

    /** `read_line`: the buffer receives the next line. When the peer has sent nothing
        more, the buffer is left holding `unread`, a value the model takes as given. */
    method ReadLine(unread: string) returns (buffer: string)
      modifies this
      ensures buffer == LineAt(old(incoming), 0, unread)
      ensures incoming == Rest(old(incoming)) && trace == old(trace) + Receipt(old(incoming))
    {
      buffer := LineAt(incoming, 0, unread);
      trace := trace + Receipt(incoming);
      incoming := Rest(incoming);
    }

    /** `send_message`: writes the already formatted text and flushes it. */
    method Send(text: string)
      modifies this
      ensures trace == old(trace) + [Sent(text)] && incoming == old(incoming)
    {
      trace := trace + [Sent(text)];
    }
  }
}
