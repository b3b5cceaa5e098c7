/**
 Bounded line frames over a buffered stream: one message per line, at most `maximum`
 bytes taken off the stream for one read. The reader sees the stream in chunks of any
 sizes; what it reads depends only on the bytes.
 */
module JsonLine {
  import opened Outcomes

  const NEWLINE: Byte := 10

  datatype Frame = Line(bytes: Bytes) | TooLong | Broken

  // -------------------------------------------------------- the stream as a whole

  predicate Plain(s: Bytes) {
    forall k :: 0 <= k < |s| ==> s[k] != NEWLINE
  }

  /** The bytes up to and including the first newline, or all of them. */
  function Upto(stream: Bytes): (n: nat)
    ensures n <= |stream| && (stream != [] ==> n > 0)
    ensures forall k :: 0 <= k < n - 1 ==> stream[k] != NEWLINE
    ensures n < |stream| ==> stream[n - 1] == NEWLINE
  {
    if stream == [] then 0 else if stream[0] == NEWLINE then 1 else 1 + Upto(stream[1..])
  }

  predicate HasLine(stream: Bytes) {
    stream != [] && stream[Upto(stream) - 1] == NEWLINE
  }

  /** What reading one frame gives, by the bytes still to come and how the stream ends. */
  function FrameOf(stream: Bytes, broken: bool, maximum: nat): Frame {
    if Upto(stream) > maximum then TooLong
    else if HasLine(stream) then Line(stream[..Upto(stream) - 1])
    else if broken then Broken
    else Line(stream)
  }

  /**
   A read of `whole` that left `rest`: the frame is the one the bytes determine, at most
   `maximum` bytes were taken, in order, and after a line the stream stands just past it.
   */
  ghost predicate Answers(frame: Frame, whole: Bytes, rest: Bytes, broken: bool, maximum: nat) {
    && frame == FrameOf(whole, broken, maximum)
    && |rest| <= |whole| <= |rest| + maximum
    && rest == whole[|whole| - |rest|..]
    && (frame.Line? ==> rest == whole[Upto(whole)..])
  }

  // ------------------------------------------------------------------ the reader

  /**
   A buffered reader: the bytes still to come, then end of input or an error. When `n`
   bytes are left the next chunk holds `cut(n)` of them, so the functions `cut` are all
   the ways to cut the stream into chunks.
   */
  class Reader {
    var stream: Bytes
    const cut: nat -> nat
    const broken: bool

    constructor (stream: Bytes, cut: nat -> nat, broken: bool)
      ensures this.stream == stream && this.cut == cut && this.broken == broken
    {
      this.stream := stream;
      this.cut := cut;
      this.broken := broken;
    }

    /** Some of the bytes to come, none only at the end of the stream. */
    method FillBuffer() returns (available: Result<Bytes>)
      ensures available.Err? <==> stream == [] && broken
      ensures available.Ok? ==> available.value <= stream && (available.value == [] <==> stream == [])
    {
      if stream == [] {
        available := if broken then Err else Ok([]);
      } else {
        var size := cut(|stream|);
        available := Ok(if 1 <= size <= |stream| then stream[..size] else stream);
      }
    }

    method Consume(take: nat)
      requires take <= |stream|
      modifies this`stream
      ensures stream == old(stream)[take..]
    {
      stream := stream[take..];
    }

    /**
     One turn of the read loop: an answer, or a longer line without a newline, the stream
     moved along by what was added.
     */
    method ReadChunk(line: Bytes, maximum: nat) returns (answer: Option<Frame>, longer: Bytes)
      requires Plain(line) && |line| <= maximum
      modifies this`stream
      ensures answer.Some? ==> Answers(answer.value, line + old(stream), stream, broken, maximum)
      ensures answer.None? ==>
                && line + old(stream) == longer + stream && Plain(longer)
                && |longer| <= maximum && |stream| < |old(stream)|
    {
      longer := line;
      var available := FillBuffer();
      if available.Err? {
        EndOfInput(line, stream, broken, maximum);
        return Some(Broken), longer;
      }
      if available.value == [] {
        EndOfInput(line, stream, broken, maximum);
        return Some(Line(line)), longer;
      }
      var take := Upto(available.value);
      if |line| + take > maximum {
        Refused(line, available.value, stream, broken, maximum);
        return Some(TooLong), longer;
      }
      Taken(line, available.value, stream, broken, maximum);
      longer := line + available.value[..take];
      Consume(take);
      answer := if available.value[take - 1] == NEWLINE then Some(Line(longer[..|longer| - 1])) else None;
    }

    /**
     The answer depends on the bytes alone, however they are cut into chunks. The bytes
     taken off the stream are all that is ever buffered.
     */
    method ReadBoundedLine(maximum: nat) returns (frame: Frame)
      modifies this`stream
      ensures Answers(frame, old(stream), stream, broken, maximum)
    {
      var line: Bytes := [];
      var answer: Option<Frame> := None;
      assert [] + stream == stream;
      while answer.None?
        invariant if answer.Some? then Answers(answer.value, old(stream), stream, broken, maximum)
                  else Plain(line) && |line| <= maximum && old(stream) == line + stream
        decreases answer.None?, |stream|
      {
        answer, line := ReadChunk(line, maximum);
      }
      frame := answer.value;
    }

    /** A framed message shorter than the maximum is read back, and nothing after it. */
    method ReadMessage(ghost message: Bytes, ghost rest: Bytes, maximum: nat) returns (frame: Frame)
      requires Plain(message) && |message| < maximum && stream == message + [NEWLINE] + rest
      modifies this`stream
      ensures frame == Line(message) && stream == rest
    {
      ReadsBack(message, rest, broken, maximum);
      frame := ReadBoundedLine(maximum);
    }

    /** Reading one line after another gives back the messages that were framed. */
    method ReadMessages(ghost messages: seq<Bytes>, ghost rest: Bytes, count: nat, maximum: nat)
      returns (frames: seq<Frame>)
      requires count == |messages| && stream == Framed(messages) + rest
      requires forall m :: m in messages ==> Plain(m) && |m| < maximum
      modifies this`stream
      ensures stream == rest
      ensures |frames| == count && forall i :: 0 <= i < count ==> frames[i] == Line(messages[i])
    {
      frames := [];
      ghost var left := messages;
      while |frames| < count
        invariant |frames| <= count && left == messages[|frames|..] && stream == Framed(left) + rest
        invariant forall i :: 0 <= i < |frames| ==> frames[i] == Line(messages[i])
      {
        assert left[0] == messages[|frames|] && left[0] in messages;
        FramedHead(left, rest);
        var frame := ReadMessage(left[0], Framed(left[1..]) + rest, maximum);
        frames := frames + [frame];
        left := left[1..];
      }
    }
  }

  lemma UptoUnique(stream: Bytes, i: nat)
    requires i < |stream| && stream[i] == NEWLINE && forall k :: 0 <= k < i ==> stream[k] != NEWLINE
    ensures Upto(stream) == i + 1 && HasLine(stream)
  {
  }

  lemma UptoPlain(stream: Bytes)
    ensures !HasLine(stream) <==> Plain(stream)
    ensures Plain(stream) ==> Upto(stream) == |stream|
  {
  }

  /** The first newline of a chunk is the first newline of the stream the chunk starts. */
  lemma UptoPrefix(chunk: Bytes, stream: Bytes)
    requires chunk <= stream && chunk != []
    ensures 0 < Upto(chunk) <= Upto(stream)
    ensures HasLine(chunk) ==> Upto(chunk) == Upto(stream) && HasLine(stream)
  {
    UptoPlain(chunk);
    if HasLine(chunk) {
      UptoUnique(stream, Upto(chunk) - 1);
    } else {
      var n := Upto(stream);
      assert n <= |chunk| ==> stream[n - 1] == chunk[n - 1];
    }
  }

  /** A newline-free start only moves the first newline along. */
  lemma PlainStart(line: Bytes, rest: Bytes)
    requires Plain(line)
    ensures Upto(line + rest) == |line| + Upto(rest)
    ensures HasLine(line + rest) <==> HasLine(rest)
  {
    var whole := line + rest;
    UptoPlain(rest);
    UptoPlain(whole);
    if HasLine(rest) {
      var i := |line| + Upto(rest) - 1;
      assert whole[i] == NEWLINE;
      UptoUnique(whole, i);
    } else {
      assert Plain(whole);
    }
  }

  /** What is added to the line, and when it ends it. */
  lemma Taken(line: Bytes, chunk: Bytes, rest: Bytes, broken: bool, maximum: nat)
    requires Plain(line) && chunk <= rest && chunk != [] && |line| + Upto(chunk) <= maximum
    ensures var longer := line + chunk[..Upto(chunk)];
            && line + rest == longer + rest[Upto(chunk)..]
            && (if HasLine(chunk) then
                  Answers(Line(longer[..|longer| - 1]), line + rest, rest[Upto(chunk)..], broken, maximum)
                else Plain(longer))
  {
    Rejoined(line, chunk, rest, Upto(chunk));
    if HasLine(chunk) {
      Finished(line, chunk, rest, broken, maximum);
    } else {
      Unfinished(line, chunk);
    }
  }

  lemma EndOfInput(line: Bytes, rest: Bytes, broken: bool, maximum: nat)
    requires Plain(line) && rest == [] && |line| <= maximum
    ensures Answers(if broken then Broken else Line(line), line + rest, rest, broken, maximum)
  {
    assert line + rest == line;
    UptoPlain(line);
  }

  lemma Refused(line: Bytes, chunk: Bytes, rest: Bytes, broken: bool, maximum: nat)
    requires Plain(line) && chunk <= rest && chunk != [] && |line| <= maximum < |line| + Upto(chunk)
    ensures Answers(TooLong, line + rest, rest, broken, maximum)
  {
    PlainStart(line, rest);
    UptoPrefix(chunk, rest);
  }

  lemma Rejoined(line: Bytes, chunk: Bytes, rest: Bytes, take: nat)
    requires chunk <= rest && take <= |chunk|
    ensures line + rest == line + chunk[..take] + rest[take..]
  {
    assert chunk[..take] == rest[..take];
    assert rest == rest[..take] + rest[take..];
  }

  lemma Unfinished(line: Bytes, chunk: Bytes)
    requires Plain(line) && !HasLine(chunk)
    ensures Plain(line + chunk[..Upto(chunk)])
  {
    UptoPlain(chunk);
  }

  lemma Finished(line: Bytes, chunk: Bytes, rest: Bytes, broken: bool, maximum: nat)
    requires Plain(line) && chunk <= rest && HasLine(chunk) && |line| + Upto(chunk) <= maximum
    ensures var longer := line + chunk[..Upto(chunk)];
            Answers(Line(longer[..|longer| - 1]), line + rest, rest[Upto(chunk)..], broken, maximum)
  {
    PlainStart(line, rest);
    UptoPrefix(chunk, rest);
    var longer, whole := line + chunk[..Upto(chunk)], line + rest;
    Rejoined(line, chunk, rest, Upto(chunk));
    assert whole[..|longer|] == longer;
    assert whole[..|longer| - 1] == longer[..|longer| - 1];
  }

  // ------------------------------------------------------------------ the writer

  /** The bytes the writer puts on the stream, or nothing when it refuses the message. */
  function Write(encoded: Bytes, maximum: nat): Result<Bytes> {
    if |encoded| <= maximum then Ok(encoded + [NEWLINE]) else Err
  }

  function Framed(messages: seq<Bytes>): Bytes {
    if messages == [] then [] else messages[0] + [NEWLINE] + Framed(messages[1..])
  }

  lemma FramedHead(messages: seq<Bytes>, rest: Bytes)
    requires messages != []
    ensures Framed(messages) + rest == messages[0] + [NEWLINE] + (Framed(messages[1..]) + rest)
  {
  }

  lemma ReadsBack(message: Bytes, rest: Bytes, broken: bool, maximum: nat)
    requires Plain(message)
    ensures var stream := message + [NEWLINE] + rest;
            && Upto(stream) == |message| + 1 && stream[Upto(stream)..] == rest
            && (FrameOf(stream, broken, maximum) == Line(message) <==> |message| < maximum)
            && (FrameOf(stream, broken, maximum) == TooLong <==> |message| >= maximum)
  {
    var stream := message + [NEWLINE] + rest;
    assert stream[..|message|] == message && stream[|message|] == NEWLINE;
    UptoUnique(stream, |message|);
  }

  /**
   One bound on both sides is one byte too generous to the writer: a message is
   written and then read back exactly when it is shorter than the bound; one of
   exactly `maximum` bytes is written and never read.
   */
  lemma RoundTripExactly(message: Bytes, rest: Bytes, broken: bool, maximum: nat)
    requires Plain(message)
    ensures (Write(message, maximum).Ok? &&
             FrameOf(Write(message, maximum).value + rest, broken, maximum) == Line(message)) <==>
            |message| + 1 <= maximum
    ensures (Write(message, maximum).Ok? &&
             FrameOf(Write(message, maximum).value + rest, broken, maximum) == TooLong) <==>
            |message| == maximum
  {
    ReadsBack(message, rest, broken, maximum);
  }

  lemma LineAndRest(stream: Bytes, n: nat)
    requires 0 < n <= |stream| && stream[n - 1] == NEWLINE
    ensures stream == stream[..n - 1] + [NEWLINE] + stream[n..]
  {
  }

  /** Reading loses nothing: a line, its newline and what is left make up the stream again. */
  lemma ReadingIsExact(stream: Bytes, broken: bool, maximum: nat)
    requires FrameOf(stream, broken, maximum).Line?
    ensures var line := FrameOf(stream, broken, maximum).bytes;
            && Plain(line) && |line| <= maximum
            && stream == line + (if HasLine(stream) then [NEWLINE] else []) + stream[Upto(stream)..]
  {
    if HasLine(stream) {
      LineAndRest(stream, Upto(stream));
    } else {
      UptoPlain(stream);
      assert stream == stream + [] + stream[|stream|..];
    }
  }

  /** Two framings of the same bytes are the same messages: frames cannot run into each other. */
  lemma {:induction false} FramesUnique(a: seq<Bytes>, b: seq<Bytes>)
    requires forall m :: m in a ==> Plain(m)
    requires forall m :: m in b ==> Plain(m)
    requires Framed(a) == Framed(b)
    ensures a == b
  {
    if a != [] && b != [] {
      FramedHead(a, []);
      FramedHead(b, []);
      assert Framed(a) + [] == Framed(a) && Framed(b) + [] == Framed(b);
      assert a[0] in a && b[0] in b;
      ReadsBack(a[0], Framed(a[1..]) + [], false, |a[0]| + 1);
      ReadsBack(b[0], Framed(b[1..]) + [], false, |a[0]| + 1);
      assert Framed(a[1..]) + [] == Framed(a[1..]) && Framed(b[1..]) + [] == Framed(b[1..]);
      FramesUnique(a[1..], b[1..]);
      assert a == [a[0]] + a[1..] && b == [b[0]] + b[1..];
    }
  }
}
