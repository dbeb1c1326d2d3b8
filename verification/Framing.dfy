/** Newline framing over a byte stream that arrives in arbitrary chunks: the
    bridge's bounded line reader and the client's message reader. */
module Framing {
  import opened Wrappers

  newtype byte = value: int | 0 <= value < 256

  type Bytes = seq<byte>

  const NEWLINE: byte := 10
  const MAX_LINE_BYTES := 1024 * 1024
  const MAX_MESSAGE_BYTES := 16 * 1024 * 1024

  function Flatten(chunks: seq<Bytes>): Bytes {
    if chunks == [] then [] else chunks[0] + Flatten(chunks[1..])
  }

  datatype ReadFailure = ReadFailure

  /** A buffered reader. The peer's bytes arrive in nonempty chunks; after the
      last one the stream ends, or fails when `broken`. */
  class BufferedInput {
    var available: Bytes
    var chunks: seq<Bytes>
    const broken: bool
    ghost var Contents: Bytes  // everything not yet consumed

    ghost predicate Valid()
      reads this
    {
      [] !in chunks && Contents == available + Flatten(chunks)
    }

    constructor (chunks: seq<Bytes>, broken: bool)
      requires [] !in chunks
      ensures Valid() && Contents == Flatten(chunks) && this.broken == broken
    {
      this.available := [];
      this.chunks := chunks;
      this.broken := broken;
      Contents := Flatten(chunks);
    }

    method FillBuf() returns (buffer: Result<Bytes, ReadFailure>)
      requires Valid()
      modifies `available, `chunks
      ensures Valid()
      ensures buffer.Err? <==> Contents == [] && broken
      ensures buffer.Ok? ==> buffer.value == available && (available == [] <==> Contents == [])
      ensures |available| <= |Contents|
      ensures forall i :: 0 <= i < |available| ==> available[i] == Contents[i]
    {
      if available == [] && chunks != [] {
        assert chunks == [chunks[0]] + chunks[1..];
        available, chunks := chunks[0], chunks[1..];
      }
      if available == [] && broken {
        return Err(ReadFailure);
      }
      return Ok(available);
    }

    method Consume(count: nat)
      requires Valid() && count <= |available|
      modifies `available, `Contents
      ensures Valid() && Contents == old(Contents)[count..]
    {
      available := available[count..];
      Contents := Contents[count..];
    }
  }

  // ---------------------------------------------------------------------
  // Lines
  // ---------------------------------------------------------------------

  /** None of the first `count` bytes is a newline. */
  predicate NoNewline(text: Bytes, count: int)
    requires count <= |text|
  {
    forall i :: 0 <= i < count ==> text[i] != NEWLINE
  }

  /** The length of the first line, its newline included; the whole stream when
      it holds no newline. */
  function LineLength(stream: Bytes): (length: nat)
    ensures length <= |stream|
    ensures stream != [] ==> length > 0
    ensures forall i :: 0 <= i < length - 1 ==> stream[i] != NEWLINE
    ensures length < |stream| ==> stream[length - 1] == NEWLINE
  {
    if stream == [] then 0
    else if stream[0] == NEWLINE then 1
    else 1 + LineLength(stream[1..])
  }

  /** The stream starts with a line that ends in a newline. */
  predicate HasLine(stream: Bytes) {
    stream != [] && stream[LineLength(stream) - 1] == NEWLINE
  }

  lemma LineEndsAt(stream: Bytes, length: nat)
    requires 0 < length <= |stream| && stream[length - 1] == NEWLINE
    requires NoNewline(stream, length - 1)
    ensures LineLength(stream) == length && HasLine(stream)
  {
  }

  lemma NoLineIn(stream: Bytes)
    requires NoNewline(stream, |stream|)
    ensures LineLength(stream) == |stream| && !HasLine(stream)
  {
  }

  /** What one step of either reader learns about the whole stream: the first
      `read` bytes hold no newline and the piece runs up to the first newline
      among the available bytes, or holds all of those. */
  lemma PieceOfLine(stream: Bytes, read: nat, available: Bytes)
    requires read + |available| <= |stream| && NoNewline(stream, read)
    requires available != []
    requires forall i :: 0 <= i < |available| ==> available[i] == stream[read + i]
    ensures var next := read + LineLength(available);
      && (HasLine(available) ==> LineLength(stream) == next && HasLine(stream))
      && (!HasLine(available) ==> NoNewline(stream, next) && LineLength(stream) >= next)
  {
    var next := read + LineLength(available);
    forall i | 0 <= i < next - 1
      ensures stream[i] != NEWLINE
    {
      if i >= read {
        assert stream[i] == available[i - read];
      }
    }
    if HasLine(available) {
      LineEndsAt(stream, next);
    }
  }

  /** Looks at the available bytes up to the first newline among them, without
      consuming any. `stream` is the whole stream of which `read` bytes, none of
      them a newline, were consumed before. An empty piece is the end. */
  method Peek(input: BufferedInput, ghost stream: Bytes, ghost read: nat)
    returns (piece: Result<Bytes, ReadFailure>, newline: bool)
    requires input.Valid()
    requires read <= |stream| && input.Contents == stream[read..] && NoNewline(stream, read)
    modifies input`available, input`chunks
    ensures input.Valid()
    ensures piece.Err? || piece.value == [] ==>
      read == |stream| == LineLength(stream) && !HasLine(stream) && (piece.Err? <==> input.broken)
    ensures piece.Ok? && piece.value != [] ==>
      var next := read + |piece.value|;
      && next <= |stream| && |piece.value| <= |input.available|
      && stream[..read] + piece.value == stream[..next]
      && (newline ==> LineLength(stream) == next && HasLine(stream))
      && (!newline ==> NoNewline(stream, next) && LineLength(stream) >= next)
  {
    newline := false;
    var filled := input.FillBuf();
    if filled.Err? || filled.value == [] {
      assert stream[..read] == stream;
      NoLineIn(stream);
      return filled, false;
    }
    var available := filled.value;
    newline := HasLine(available);
    PieceOfLine(stream, read, available);
    piece := Ok(available[..LineLength(available)]);
  }

  method Advance(input: BufferedInput, ghost stream: Bytes, ghost read: nat, count: nat)
    requires input.Valid() && count <= |input.available|
    requires read + count <= |stream| && input.Contents == stream[read..]
    modifies input
    ensures input.Valid() && input.Contents == stream[read + count..]
  {
    input.Consume(count);
  }

  // ---------------------------------------------------------------------
  // The bridge's line reader
  // ---------------------------------------------------------------------

  datatype InputFrame = Line(bytes: Bytes) | TooLarge | End | ReadError

  function Classified(line: Bytes): InputFrame {
    if |line| > MAX_LINE_BYTES then TooLarge else Line(line)
  }

  /** One read of a line as a function of the whole remaining stream: the result
      and the stream left behind. */
  function NextLine(stream: Bytes, broken: bool): (Result<Option<InputFrame>, ReadFailure>, Bytes) {
    var length := LineLength(stream);
    if !HasLine(stream) && broken then (Err(ReadFailure), [])
    else if stream == [] then (Ok(None), [])
    else (Ok(Some(Classified(stream[..length]))), stream[length..])
  }

  /** Reads one line, dropping its bytes once it exceeds the limit; `held` is
      what the line buffer, which only grows, holds at the end. */
  method ReadLimitedLine(input: BufferedInput)
    returns (frame: Result<Option<InputFrame>, ReadFailure>, ghost held: nat)
    requires input.Valid()
    modifies input
    ensures input.Valid()
    ensures frame == NextLine(old(input.Contents), input.broken).0
    ensures input.Contents == NextLine(old(input.Contents), input.broken).1
    ensures held <= MAX_LINE_BYTES
  {
    var bytes: Bytes := [];
    var oversized, receivedAny := false, false;
    ghost var stream := input.Contents;
    ghost var read := 0;
    while true
      invariant input.Valid()
      invariant 0 <= read <= |stream| && input.Contents == stream[read..]
      invariant NoNewline(stream, read)
      invariant oversized <==> read > MAX_LINE_BYTES
      invariant |bytes| <= MAX_LINE_BYTES
      invariant !oversized ==> bytes == stream[..read]
      invariant receivedAny <==> read > 0
      decreases |stream| - read
    {
      var piece, newline := Peek(input, stream, read);
      if piece.Err? {
        return Err(ReadFailure), |bytes|;
      }
      var consumed := |piece.value|;
      if consumed == 0 {
        LineRead(stream, read, bytes, input.broken);
        return Ok(if !receivedAny then None else Some(if oversized then TooLarge else Line(bytes))), |bytes|;
      }
      receivedAny := true;
      if !oversized {
        if |bytes| + consumed > MAX_LINE_BYTES {
          oversized := true;
        } else {
          bytes := bytes + piece.value;
        }
      }
      Advance(input, stream, read, consumed);
      read := read + consumed;
      if newline {
        LineRead(stream, read, bytes, input.broken);
        return Ok(Some(if oversized then TooLarge else Line(bytes))), |bytes|;
      }
    }
  }

  lemma LineRead(stream: Bytes, read: nat, bytes: Bytes, broken: bool)
    requires read == LineLength(stream) && (HasLine(stream) || (read == |stream| && !broken))
    requires read <= MAX_LINE_BYTES ==> bytes == stream[..read]
    ensures NextLine(stream, broken).1 == stream[read..]
    ensures NextLine(stream, broken).0 == Ok(
      if read == 0 then None else Some(if read > MAX_LINE_BYTES then TooLarge else Line(bytes)))
  {
  }

  /** The frames a stream amounts to. */
  function Frames(stream: Bytes, broken: bool): seq<InputFrame>
    decreases |stream|
  {
    if !HasLine(stream) && broken then [ReadError]
    else if stream == [] then [End]
    else [Classified(stream[..LineLength(stream)])] + Frames(stream[LineLength(stream)..], broken)
  }

  lemma FramesStep(sent: seq<InputFrame>, stream: Bytes, broken: bool, frames: seq<InputFrame>)
    requires sent + Frames(stream, broken) == frames
    ensures |sent| < |frames| && frames[..|sent|] == sent
    ensures var (line, rest) := NextLine(stream, broken);
      match line
      case Ok(Some(frame)) => (sent + [frame]) + Frames(rest, broken) == frames && |rest| < |stream|
      case Ok(None) => sent + [End] == frames
      case Err(_) => sent + [ReadError] == frames
  {
  }

  /** The input task: forwards frames until the stream is over or the receiver,
      which takes `accepted` more frames, is gone. */
  method ReadInput(input: BufferedInput, accepted: nat) returns (sent: seq<InputFrame>)
    requires input.Valid()
    modifies input
    ensures var frames := Frames(old(input.Contents), input.broken);
      sent == if accepted < |frames| then frames[..accepted] else frames
  {
    sent := [];
    ghost var frames := Frames(input.Contents, input.broken);
    while true
      invariant input.Valid()
      invariant |sent| <= accepted
      invariant sent + Frames(input.Contents, input.broken) == frames
      decreases |input.Contents|
    {
      FramesStep(sent, input.Contents, input.broken, frames);
      var line, _ := ReadLimitedLine(input);
      if |sent| == accepted {
        return;
      }
      match line
      case Ok(Some(frame)) =>
        sent := sent + [frame];
      case Ok(None) =>
        sent := sent + [End];
        return;
      case Err(_) =>
        sent := sent + [ReadError];
        return;
    }
  }

  // ---------------------------------------------------------------------
  // Splitting a whole stream, independently of any reader
  // ---------------------------------------------------------------------

  function SplitLines(stream: Bytes): seq<Bytes>
    decreases |stream|
  {
    if stream == [] then []
    else [stream[..LineLength(stream)]] + SplitLines(stream[LineLength(stream)..])
  }

  /** A newline ends every line but perhaps the last, and occurs nowhere else. */
  ghost predicate IsSplit(lines: seq<Bytes>, stream: Bytes) {
    && Flatten(lines) == stream
    && (forall i :: 0 <= i < |lines| ==>
      lines[i] != [] && NoNewline(lines[i], |lines[i]| - 1))
    && (forall i :: 0 <= i < |lines| - 1 ==> lines[i][|lines[i]| - 1] == NEWLINE)
  }

  lemma SplitBehind(line: Bytes, lines: seq<Bytes>, rest: Bytes)
    requires IsSplit(lines, rest) && line != [] && NoNewline(line, |line| - 1)
    requires lines != [] ==> line[|line| - 1] == NEWLINE
    ensures IsSplit([line] + lines, line + rest)
  {
    var all := [line] + lines;
    assert all[1..] == lines;
    assert forall i :: 0 < i < |all| ==> all[i] == lines[i - 1];
  }

  lemma {:induction false} SplitLinesSplits(stream: Bytes)
    ensures IsSplit(SplitLines(stream), stream)
    decreases |stream|
  {
    if stream != [] {
      var n := LineLength(stream);
      SplitLinesSplits(stream[n..]);
      SplitBehind(stream[..n], SplitLines(stream[n..]), stream[n..]);
      assert stream[..n] + stream[n..] == stream;
    }
  }

  lemma FirstOfSplit(lines: seq<Bytes>, stream: Bytes)
    requires IsSplit(lines, stream) && lines != []
    ensures stream[..LineLength(stream)] == lines[0]
    ensures stream != [] && stream[LineLength(stream)..] == Flatten(lines[1..])
  {
    var first, later := lines[0], Flatten(lines[1..]);
    assert stream == first + later;
    if |first| < |stream| {
      assert |lines| > 1;
    }
    FirstLineIs(stream, |first|);
  }

  lemma RestOfSplit(lines: seq<Bytes>)
    requires lines != [] && IsSplit(lines, Flatten(lines))
    ensures IsSplit(lines[1..], Flatten(lines[1..]))
  {
    var later := lines[1..];
    assert forall i :: 0 <= i < |later| ==> later[i] == lines[i + 1];
  }

  lemma SplitCons(stream: Bytes)
    requires stream != []
    ensures SplitLines(stream) == [stream[..LineLength(stream)]] + SplitLines(stream[LineLength(stream)..])
  {
  }

  lemma {:induction false} SplitIsUnique(lines: seq<Bytes>, stream: Bytes)
    requires IsSplit(lines, stream)
    ensures lines == SplitLines(stream)
    decreases |lines|
  {
    if lines != [] {
      FirstOfSplit(lines, stream);
      RestOfSplit(lines);
      SplitIsUnique(lines[1..], Flatten(lines[1..]));
      SplitCons(stream);
      assert lines == [lines[0]] + lines[1..];
    }
  }

  lemma FirstLineIs(stream: Bytes, length: nat)
    requires 0 < length <= |stream| && NoNewline(stream, length - 1)
    requires length < |stream| ==> stream[length - 1] == NEWLINE
    ensures LineLength(stream) == length
  {
  }

  /** What a line is forwarded as. */
  function Forwarded(line: Bytes): InputFrame {
    if |line| <= 1_048_576 then Line(line) else TooLarge
  }

  function ClassifiedAll(lines: seq<Bytes>): (frames: seq<InputFrame>)
    ensures |frames| == |lines|
  {
    seq(|lines|, i requires 0 <= i < |lines| => Forwarded(lines[i]))
  }

  /** The lines that end in a newline: all but perhaps the last. */
  function Finished(lines: seq<Bytes>): seq<Bytes> {
    if lines == [] then []
    else
      var last := lines[|lines| - 1];
      if last != [] && last[|last| - 1] == NEWLINE then lines else lines[..|lines| - 1]
  }

  /** The frames sent are the lines of the whole stream, each too large exactly when
      it exceeds the limit, then the end; of a stream that breaks they are the
      finished lines, then the error. */
  lemma {:induction false} FramesAreTheLines(stream: Bytes, broken: bool)
    ensures FramesAreLines(stream, broken)
    decreases |stream|
  {
    if stream == [] {
      NoFrames(broken);
    } else if HasLine(stream) {
      FramesAreTheLines(stream[LineLength(stream)..], broken);
      FirstFrame(stream, broken);
    } else {
      LastFrame(stream, broken);
    }
  }

  ghost predicate FramesAreLines(stream: Bytes, broken: bool) {
    Frames(stream, broken) == FramesOf(SplitLines(stream), broken)
  }

  lemma NoFrames(broken: bool)
    ensures FramesAreLines([], broken)
  {
  }

  lemma FirstFrame(stream: Bytes, broken: bool)
    requires stream != [] && HasLine(stream)
    requires FramesAreLines(stream[LineLength(stream)..], broken)
    ensures FramesAreLines(stream, broken)
  {
    var first, rest := stream[..LineLength(stream)], stream[LineLength(stream)..];
    SplitCons(stream);
    FramesCons(first, SplitLines(rest), broken);
    assert Classified(first) == Forwarded(first);
    assert Frames(stream, broken) == [Classified(first)] + Frames(rest, broken);
  }

  function FramesOf(lines: seq<Bytes>, broken: bool): seq<InputFrame> {
    if broken then ClassifiedAll(Finished(lines)) + [ReadError] else ClassifiedAll(lines) + [End]
  }

  lemma ClassifiedCons(first: Bytes, lines: seq<Bytes>)
    ensures ClassifiedAll([first] + lines) == [Forwarded(first)] + ClassifiedAll(lines)
  {
  }

  lemma FinishedCons(first: Bytes, lines: seq<Bytes>)
    requires first != [] && first[|first| - 1] == NEWLINE
    ensures Finished([first] + lines) == [first] + Finished(lines)
  {
    if lines != [] {
      assert ([first] + lines)[..|lines|] == [first] + lines[..|lines| - 1];
    }
  }

  lemma FramesCons(first: Bytes, lines: seq<Bytes>, broken: bool)
    requires first != [] && first[|first| - 1] == NEWLINE
    ensures FramesOf([first] + lines, broken) == [Forwarded(first)] + FramesOf(lines, broken)
  {
    ClassifiedCons(first, lines);
    FinishedCons(first, lines);
    ClassifiedCons(first, Finished(lines));
  }

  lemma LastFrame(stream: Bytes, broken: bool)
    requires stream != [] && !HasLine(stream)
    ensures FramesAreLines(stream, broken)
  {
    var n := LineLength(stream);
    assert n == |stream|;
    SplitCons(stream);
    assert stream[n..] == [] && stream[..n] == stream;
    assert SplitLines(stream) == [stream];
    ClassifiedCons(stream, []);
    assert ClassifiedAll([]) == [];
    assert Finished([stream]) == [];
  }

  // ---------------------------------------------------------------------
  // The client's message reader
  // ---------------------------------------------------------------------

  datatype FrameError = Overlong | Truncated | Broken

  datatype MessageRead = Message(frame: Bytes) | EndOfStream | Failed(error: FrameError)

  predicate IsWhitespace(b: byte) {
    b == 9 || b == 10 || b == 12 || b == 13 || b == 32
  }

  predicate Blank(line: Bytes) {
    forall b :: b in line ==> IsWhitespace(b)
  }

  /** One message read as a function of the remaining stream, with the stream
      left behind; after a failure the connection is given up. */
  function NextMessage(stream: Bytes, broken: bool): (MessageRead, Bytes)
    decreases |stream|
  {
    var length := LineLength(stream);
    if length > MAX_MESSAGE_BYTES then (Failed(Overlong), [])
    else if !HasLine(stream) && broken then (Failed(Broken), [])
    else if stream == [] then (EndOfStream, [])
    else if !HasLine(stream) then (Failed(Truncated), [])
    else if Blank(stream[..length]) then NextMessage(stream[length..], broken)
    else (Message(stream[..length]), stream[length..])
  }

  lemma StreamEnds(stream: Bytes, broken: bool)
    requires |stream| == LineLength(stream) <= MAX_MESSAGE_BYTES && !HasLine(stream) && !broken
    ensures NextMessage(stream, broken).0 == if stream == [] then EndOfStream else Failed(Truncated)
    ensures stream == [] ==> NextMessage(stream, broken).1 == []
  {
  }

  lemma StreamBreaks(stream: Bytes)
    requires LineLength(stream) <= MAX_MESSAGE_BYTES && !HasLine(stream)
    ensures NextMessage(stream, true).0 == Failed(Broken)
  {
  }

  lemma LineIsOverlong(stream: Bytes, broken: bool)
    requires LineLength(stream) > MAX_MESSAGE_BYTES
    ensures NextMessage(stream, broken).0 == Failed(Overlong)
  {
  }

  /** The frame is what has been read of the first line of the stream. */
  ghost predicate Reading(stream: Bytes, frame: Bytes, contents: Bytes) {
    && |frame| <= |stream| && frame == stream[..|frame|] && contents == stream[|frame|..]
    && NoNewline(stream, |frame|)
  }

  /** The frame is the whole first line of the stream. */
  ghost predicate HasRead(stream: Bytes, frame: Bytes, contents: Bytes) {
    && HasLine(stream) && |frame| == LineLength(stream)
    && frame == stream[..|frame|] && contents == stream[|frame|..]
  }

  lemma StartsReading(stream: Bytes)
    ensures Reading(stream, [], stream)
  {
    assert stream[0..] == stream && stream[..0] == [];
  }

  lemma LineEnds(stream: Bytes, frame: Bytes, contents: Bytes, broken: bool)
    requires HasRead(stream, frame, contents) && |frame| <= MAX_MESSAGE_BYTES
    ensures NextMessage(stream, broken) ==
      if Blank(frame) then NextMessage(contents, broken) else (Message(frame), contents)
  {
  }

  /** Takes the available bytes up to the first newline among them, if the frame has
      room for them. */
  method TakePiece(input: BufferedInput, frame: Bytes, ghost stream: Bytes)
    returns (piece: Result<Bytes, ReadFailure>, newline: bool)
    requires input.Valid() && Reading(stream, frame, input.Contents)
    modifies input
    ensures input.Valid()
    ensures piece.Err? || piece.value == [] ==>
      && |frame| == |stream| == LineLength(stream) && !HasLine(stream) && (piece.Err? <==> input.broken)
      && Reading(stream, frame, input.Contents)
    ensures piece.Ok? && piece.value != [] ==>
      var longer := frame + piece.value;
      LineLength(stream) >= |longer| &&
      (|longer| <= MAX_MESSAGE_BYTES ==>
        if newline then HasRead(stream, longer, input.Contents) else Reading(stream, longer, input.Contents))
  {
    piece, newline := Peek(input, stream, |frame|);
    if piece.Ok? && |frame| + |piece.value| <= MAX_MESSAGE_BYTES {
      Advance(input, stream, |frame|, |piece.value|);
    }
  }

  method ReadMessage(input: BufferedInput) returns (message: MessageRead, ghost peak: nat)
    requires input.Valid()
    modifies input
    ensures input.Valid()
    ensures message == NextMessage(old(input.Contents), input.broken).0
    ensures !message.Failed? ==> input.Contents == NextMessage(old(input.Contents), input.broken).1
    ensures peak <= MAX_MESSAGE_BYTES
  {
    var frame: Bytes := [];
    peak := 0;
    ghost var stream := input.Contents;
    ghost var outcome := NextMessage(stream, input.broken);
    StartsReading(stream);
    while true
      invariant input.Valid()
      invariant Reading(stream, frame, input.Contents)
      invariant |frame| <= peak <= MAX_MESSAGE_BYTES
      invariant NextMessage(stream, input.broken) == outcome
      decreases |stream|, |stream| - |frame|
    {
      var piece, newline := TakePiece(input, frame, stream);
      if piece.Err? {
        StreamBreaks(stream);
        return Failed(Broken), peak;
      }
      var count := |piece.value|;
      if count == 0 {
        StreamEnds(stream, input.broken);
        return if frame == [] then EndOfStream else Failed(Truncated), peak;
      }
      if |frame| + count > MAX_MESSAGE_BYTES {
        LineIsOverlong(stream, input.broken);
        return Failed(Overlong), peak;
      }
      frame := frame + piece.value;
      peak := if |frame| > peak then |frame| else peak;
      if newline {
        LineEnds(stream, frame, input.Contents, input.broken);
        if !Blank(frame) {
          return Message(frame), peak;
        }
        stream, frame := input.Contents, [];
        StartsReading(stream);
      }
    }
  }

  /** Everything a connection delivers: its messages and why they stopped. */
  function AllMessages(stream: Bytes, broken: bool): (seq<Bytes>, MessageRead)
    decreases |stream|
  {
    var read := NextMessage(stream, broken);
    if read.0.Message? then
      MessageShortens(stream, broken);
      var later := AllMessages(read.1, broken);
      ([read.0.frame] + later.0, later.1)
    else ([], read.0)
  }

  lemma {:induction false} MessageShortens(stream: Bytes, broken: bool)
    ensures NextMessage(stream, broken).0.Message? ==> |NextMessage(stream, broken).1| < |stream|
    decreases |stream|
  {
    if HasLine(stream) {
      MessageShortens(stream[LineLength(stream)..], broken);
    }
  }

  /** Nothing but tabs, line feeds, form feeds, carriage returns and spaces. */
  predicate OnlySpace(line: Bytes) {
    forall i :: 0 <= i < |line| ==> line[i] in {9, 10, 12, 13, 32}
  }

  lemma BlankIsOnlySpace(line: Bytes)
    ensures Blank(line) <==> OnlySpace(line)
  {
    if Blank(line) {
      forall i | 0 <= i < |line|
        ensures line[i] in {9, 10, 12, 13, 32}
      {
        assert line[i] in line;
      }
    }
  }

  /** The same, read off the lines of the whole stream: blank lines are skipped
      and the first line that is too long, or not finished, ends the connection. */
  function Accepted(lines: seq<Bytes>, broken: bool): (seq<Bytes>, MessageRead) {
    if lines == [] then ([], if broken then Failed(Broken) else EndOfStream)
    else if |lines[0]| > 16_777_216 then ([], Failed(Overlong))
    else if lines[0] == [] || lines[0][|lines[0]| - 1] != NEWLINE then
      ([], Failed(if broken then Broken else Truncated))
    else
      var later := Accepted(lines[1..], broken);
      if OnlySpace(lines[0]) then later else ([lines[0]] + later.0, later.1)
  }

  lemma {:induction false} MessagesAreTheLines(stream: Bytes, broken: bool)
    ensures AllMessages(stream, broken) == Accepted(SplitLines(stream), broken)
    decreases |stream|
  {
    if stream != [] {
      var n := LineLength(stream);
      var rest := stream[n..];
      assert SplitLines(stream)[0] == stream[..n];
      assert SplitLines(stream)[1..] == SplitLines(rest);
      BlankIsOnlySpace(stream[..n]);
      MessagesAreTheLines(rest, broken);
    }
  }

  // ---------------------------------------------------------------------
  // Writing
  // ---------------------------------------------------------------------

  /** What the client puts on the stream for one serialized message; nothing
      when the frame would exceed what a reader accepts. */
  function Written(text: Bytes): Option<Bytes> {
    if |text| >= MAX_MESSAGE_BYTES then None else Some(text + [NEWLINE])
  }

  /** Every frame the writer lets through is read back whole by the reader, and
      a serialized message it refuses would be rejected by it. */
  lemma WrittenMessageIsRead(text: Bytes, rest: Bytes, broken: bool)
    requires NoNewline(text, |text|) && !OnlySpace(text)
    ensures Written(text).Some? ==>
      NextMessage(text + [NEWLINE] + rest, broken) == (Message(Written(text).value), rest)
    ensures Written(text).None? ==>
      NextMessage(text + [NEWLINE] + rest, broken).0 == Failed(Overlong)
  {
    var stream := text + [NEWLINE] + rest;
    assert stream[..|text|] == text;
    LineEndsAt(stream, |text| + 1);
    assert stream[..|text| + 1] == text + [NEWLINE];
    assert stream[|text| + 1..] == rest;
    BlankIsOnlySpace(text);
    var b :| b in text && !IsWhitespace(b);
    assert b in text + [NEWLINE];
  }
}
