/**
 The i3/Sway IPC framing of SwayIpc.cpp: a frame is the six bytes "i3-ipc", the payload length and the message type as
 little-endian 32-bit numbers, then the payload (i3 IPC interface, "Sending messages to i3").
 */
module SwayIpc {
  import opened Prelude

  type Byte = b: int | 0 <= b < 256
  type Bytes = seq<Byte>

  const MAGIC: Bytes := [0x69, 0x33, 0x2d, 0x69, 0x70, 0x63]
  const HEADER_SIZE := 14
  const MAXIMUM_PAYLOAD := 8 * 1024 * 1024
  const WORD := 0x1_0000_0000

  type UInt32 = n: nat | n < 0x1_0000_0000

  datatype Frame = Frame(kind: UInt32, payload: Bytes)

  /** Frames whose length the encoder does not truncate and the decoder accepts. */
  predicate Sendable(f: Frame) {
    |f.payload| <= MAXIMUM_PAYLOAD
  }

  predicate AllSendable(frames: seq<Frame>) {
    forall f :: f in frames ==> Sendable(f)
  }

  function LittleEndian(n: UInt32): (r: Bytes)
    ensures |r| == 4 && Number(r) == n
  {
    var n1 := n / 256;
    var n2 := n1 / 256;
    [n % 256, n1 % 256, n2 % 256, n2 / 256]
  }

  function Number(b: Bytes): UInt32
    requires |b| == 4
  {
    (b[0] as int) + 256 * (b[1] as int) + 65536 * (b[2] as int) + 16777216 * (b[3] as int)
  }

  lemma NumberRoundTrip(b: Bytes)
    requires |b| == 4
    ensures LittleEndian(Number(b)) == b
  {
    var n, b1, b2, b3 := Number(b), b[1] as int, b[2] as int, b[3] as int;
    assert n % 256 == b[0] && n / 256 == b1 + 256 * b2 + 65536 * b3;
    assert n / 256 / 256 == b2 + 256 * b3;
  }

  /** The length field has 32 bits. */
  function Encode(kind: UInt32, payload: Bytes): Bytes {
    MAGIC + LittleEndian(|payload| % WORD) + LittleEndian(kind) + payload
  }

  /** Four bytes as the i3 protocol counts them on a little-endian machine. */
  predicate Counts(b: Bytes, n: nat) {
    |b| == 4 && n == (b[0] as int) + 0x100 * (b[1] as int) + 0x1_0000 * (b[2] as int) + 0x100_0000 * (b[3] as int)
  }

  /** The layout of a frame, byte by byte: "i3-ipc", the length of the payload, the type, the payload. */
  lemma FrameLayout(kind: UInt32, payload: Bytes)
    requires |payload| < 0x1_0000_0000
    ensures var frame := Encode(kind, payload);
            && |frame| == 14 + |payload|
            && frame[..6] == [0x69, 0x33, 0x2d, 0x69, 0x70, 0x63]
            && Counts(frame[6..10], |payload|) && Counts(frame[10..14], kind) && frame[14..] == payload
  {
    var frame := Encode(kind, payload);
    assert frame[6..10] == LittleEndian(|payload|) && frame[10..14] == LittleEndian(kind);
  }

  function EncodeAll(frames: seq<Frame>): Bytes {
    if frames == [] then [] else Encode(frames[0].kind, frames[0].payload) + EncodeAll(frames[1..])
  }

  // ---------------------------------------------------------------- the decoder, as a function on its state

  datatype State = State(buffer: Bytes, frames: seq<Frame>, error: string)

  const EMPTY := State([], [], "")

  predicate HasHeader(b: Bytes) { |b| >= HEADER_SIZE }

  function Length(b: Bytes): UInt32
    requires HasHeader(b)
  {
    Number(b[6..10])
  }

  function Kind(b: Bytes): UInt32
    requires HasHeader(b)
  {
    Number(b[10..14])
  }

  /** Why the header at the front of the buffer is unacceptable, or empty. */
  function HeaderError(b: Bytes): string
    requires HasHeader(b)
  {
    if b[..6] != MAGIC then "invalid i3 IPC magic"
    else if Length(b) > MAXIMUM_PAYLOAD then "i3 IPC payload exceeds 8 MiB"
    else ""
  }

  /** A header is good exactly if it begins with "i3-ipc" and announces at most 8 MiB; the magic is judged first. */
  lemma HeaderDecides(b: Bytes, length: nat)
    requires |b| >= 14 && Counts(b[6..10], length)
    ensures HeaderError(b) == if b[..6] != [0x69, 0x33, 0x2d, 0x69, 0x70, 0x63] then "invalid i3 IPC magic"
                              else if length > 8388608 then "i3 IPC payload exceeds 8 MiB"
                              else ""
  {}

  predicate HasFrame(b: Bytes) {
    HasHeader(b) && HeaderError(b) == "" && |b| >= HEADER_SIZE + Length(b)
  }

  function FirstFrame(b: Bytes): Frame
    requires HasFrame(b)
  {
    Frame(Kind(b), b[HEADER_SIZE..HEADER_SIZE + Length(b)])
  }

  function Rest(b: Bytes): Bytes
    requires HasFrame(b)
  {
    b[HEADER_SIZE + Length(b)..]
  }

  /** Take complete frames off the front until one is incomplete or a header is bad. */
  function Drain(d: State): State
    decreases |d.buffer|
  {
    if !HasHeader(d.buffer) then d
    else if HeaderError(d.buffer) != "" then d.(error := HeaderError(d.buffer))
    else if !HasFrame(d.buffer) then d
    else Drain(State(Rest(d.buffer), d.frames + [FirstFrame(d.buffer)], d.error))
  }

  function Receive(d: State, bytes: Bytes): State {
    if d.error != "" then d else Drain(d.(buffer := d.buffer + bytes))
  }

  function ReceiveAll(d: State, chunks: seq<Bytes>): State
    decreases |chunks|
  {
    if chunks == [] then d else ReceiveAll(Receive(d, chunks[0]), chunks[1..])
  }

  function Whole(chunks: seq<Bytes>): Bytes {
    if chunks == [] then [] else chunks[0] + Whole(chunks[1..])
  }

  // ---------------------------------------------------------------- chunks do not matter

  /** Bytes that arrive later change nothing about the frame at the front. */
  lemma HeaderIsStable(b: Bytes, more: Bytes)
    requires HasHeader(b)
    ensures HasHeader(b + more) && HeaderError(b + more) == HeaderError(b) && Length(b + more) == Length(b)
    ensures HasFrame(b) ==> HasFrame(b + more) && FirstFrame(b + more) == FirstFrame(b) && Rest(b + more) == Rest(b) + more
  {
    assert (b + more)[..6] == b[..6] && (b + more)[6..10] == b[6..10] && (b + more)[10..14] == b[10..14];
    if HasFrame(b) {
      var end := HEADER_SIZE + Length(b);
      assert (b + more)[HEADER_SIZE..end] == b[HEADER_SIZE..end];
      assert (b + more)[end..] == b[end..] + more;
    }
  }

  lemma {:induction false} DrainThenMore(d: State, more: Bytes)
    requires d.error == ""
    ensures var e, whole := Drain(d), Drain(d.(buffer := d.buffer + more));
            if e.error == "" then whole == Drain(e.(buffer := e.buffer + more))
            else whole.frames == e.frames && whole.error == e.error
    decreases |d.buffer|
  {
    if HasHeader(d.buffer) {
      HeaderIsStable(d.buffer, more);
      if HasFrame(d.buffer) {
        DrainThenMore(State(Rest(d.buffer), d.frames + [FirstFrame(d.buffer)], d.error), more);
      }
    }
  }

  lemma ReceiveTwice(d: State, a: Bytes, b: Bytes)
    ensures var split, joined := Receive(Receive(d, a), b), Receive(d, a + b);
            && split.frames == joined.frames && split.error == joined.error
            && (split.error == "" ==> split == joined)
  {
    if d.error == "" {
      DrainThenMore(d.(buffer := d.buffer + a), b);
      assert d.buffer + a + b == d.buffer + (a + b);
    }
  }

  lemma {:induction false} StuckOnError(d: State, chunks: seq<Bytes>)
    requires d.error != ""
    ensures ReceiveAll(d, chunks) == d
    decreases |chunks|
  {
    if chunks != [] { StuckOnError(d, chunks[1..]); }
  }

  /** However the stream is cut, the frames and the error are those of decoding it whole. */
  lemma {:induction false} ChunksDoNotMatter(d: State, chunks: seq<Bytes>)
    requires chunks != [] || Drain(d) == d
    ensures var split, whole := ReceiveAll(d, chunks), Receive(d, Whole(chunks));
            && split.frames == whole.frames && split.error == whole.error
            && (split.error == "" ==> split == whole)
    decreases |chunks|
  {
    if chunks == [] {
      assert d.buffer + [] == d.buffer;
    } else if |chunks| == 1 {
      assert chunks[0] + [] == chunks[0];
      assert ReceiveAll(Receive(d, chunks[0]), chunks[1..]) == Receive(d, chunks[0]);
    } else {
      ChunksDoNotMatter(Receive(d, chunks[0]), chunks[1..]);
      ReceiveTwice(d, chunks[0], Whole(chunks[1..]));
    }
  }

  /** Frames taken out between two chunks do not influence what is decoded afterwards. */
  lemma {:induction false} TakenFramesDoNotMatter(d: State, taken: seq<Frame>)
    ensures Drain(d.(frames := taken + d.frames)) == Drain(d).(frames := taken + Drain(d).frames)
    decreases |d.buffer|
  {
    if HasFrame(d.buffer) {
      TakenFramesDoNotMatter(State(Rest(d.buffer), d.frames + [FirstFrame(d.buffer)], d.error), taken);
      assert taken + (d.frames + [FirstFrame(d.buffer)]) == taken + d.frames + [FirstFrame(d.buffer)];
    }
  }

  /** What the caller collects when it takes the frames out after every chunk. */
  function Taken(d: State, chunks: seq<Bytes>): seq<Frame>
    decreases |chunks|
  {
    if chunks == [] then d.frames else d.frames + Taken(Receive(d.(frames := []), chunks[0]), chunks[1..])
  }

  lemma {:induction false} TakingIsInvisible(d: State, taken: seq<Frame>, chunks: seq<Bytes>)
    ensures ReceiveAll(d.(frames := taken + d.frames), chunks).frames == taken + Taken(d, chunks)
    decreases |chunks|
  {
    if chunks != [] {
      var all := taken + d.frames;
      var d' := d.(frames := []);
      TakenFramesDoNotMatter(d'.(buffer := d.buffer + chunks[0]), all);
      assert all + [] == all;
      TakingIsInvisible(Receive(d', chunks[0]), all, chunks[1..]);
    }
  }

  /** Cutting the stream and taking frames after every piece yields the frames of the whole stream, in order. */
  lemma StreamsAreReadOnce(chunks: seq<Bytes>)
    ensures Taken(EMPTY, chunks) == Receive(EMPTY, Whole(chunks)).frames
  {
    TakingIsInvisible(EMPTY, [], chunks);
    assert [] + EMPTY.frames == EMPTY.frames && [] + Taken(EMPTY, chunks) == Taken(EMPTY, chunks);
    ChunksDoNotMatter(EMPTY, chunks);
  }

  // ---------------------------------------------------------------- nothing is lost, nothing is left behind

  lemma FrameIsItsEncoding(b: Bytes)
    requires HasFrame(b)
    ensures Sendable(FirstFrame(b)) && b == Encode(FirstFrame(b).kind, FirstFrame(b).payload) + Rest(b)
  {
    hide LittleEndian, Number;
    NumberRoundTrip(b[6..10]);
    NumberRoundTrip(b[10..14]);
    HeaderAndRest(b, 14 + Length(b));
  }

  lemma HeaderAndRest(b: Bytes, end: nat)
    requires 14 <= end <= |b|
    ensures b == b[..6] + b[6..10] + b[10..14] + b[14..end] + b[end..]
  {}

  lemma {:induction false} EncodeAllOneMore(frames: seq<Frame>, f: Frame)
    ensures EncodeAll(frames + [f]) == EncodeAll(frames) + Encode(f.kind, f.payload)
  {
    if frames == [] {
      assert EncodeAll([f]) == Encode(f.kind, f.payload) + EncodeAll([]);
    } else {
      assert (frames + [f])[1..] == frames[1..] + [f];
      EncodeAllOneMore(frames[1..], f);
    }
  }

  ghost predicate Lossless(d: State, received: Bytes) {
    && AllSendable(d.frames)
    && EncodeAll(d.frames) + d.buffer == received
  }

  /**
   The frames and the bytes still buffered are together exactly what was received; and when decoding succeeded the
   bytes still buffered never hold a complete frame.
   */
  lemma {:induction false} DrainIsLossless(d: State, received: Bytes)
    requires Lossless(d, received)
    ensures Lossless(Drain(d), received)
    ensures d.error == "" && Drain(d).error == "" ==>
              !HasFrame(Drain(d).buffer) && (HasHeader(Drain(d).buffer) ==> HeaderError(Drain(d).buffer) == "")
    decreases |d.buffer|
  {
    if HasFrame(d.buffer) {
      var f := FirstFrame(d.buffer);
      FrameIsItsEncoding(d.buffer);
      EncodeAllOneMore(d.frames, f);
      var d' := State(Rest(d.buffer), d.frames + [f], d.error);
      assert EncodeAll(d'.frames) + d'.buffer == received by {
        var e := Encode(f.kind, f.payload);
        assert EncodeAll(d.frames) + e + d'.buffer == EncodeAll(d.frames) + (e + d'.buffer);
      }
      DrainIsLossless(d', received);
    }
  }

  lemma EncodedFrameIsFirst(f: Frame, rest: Bytes)
    requires Sendable(f)
    ensures var b := Encode(f.kind, f.payload) + rest;
            HasFrame(b) && FirstFrame(b) == f && Rest(b) == rest
  {
    var b := Encode(f.kind, f.payload) + rest;
    assert |f.payload| % WORD == |f.payload|;
    assert b[..6] == MAGIC && b[6..10] == LittleEndian(|f.payload|) && b[10..14] == LittleEndian(f.kind);
    assert b[14..14 + |f.payload|] == f.payload && b[14 + |f.payload|..] == rest;
  }

  lemma {:induction false} DrainEncoded(done: seq<Frame>, frames: seq<Frame>)
    requires AllSendable(frames)
    ensures Drain(State(EncodeAll(frames), done, "")) == State([], done + frames, "")
    decreases |frames|
  {
    hide Encode, FirstFrame, Rest;
    if frames == [] {
      assert done + [] == done;
    } else {
      EncodedFrameIsFirst(frames[0], EncodeAll(frames[1..]));
      DrainEncoded(done + [frames[0]], frames[1..]);
      assert done + [frames[0]] + frames[1..] == done + frames;
    }
  }

  /** Round trip: any number of encoded frames, cut in any way, decode to exactly those frames with nothing left. */
  lemma EncodedStreamsRoundTrip(frames: seq<Frame>, chunks: seq<Bytes>)
    requires AllSendable(frames)
    requires Whole(chunks) == EncodeAll(frames)
    ensures ReceiveAll(EMPTY, chunks) == State([], frames, "")
  {
    DrainEncoded([], frames);
    assert [] + frames == frames && [] + EncodeAll(frames) == EncodeAll(frames);
    ChunksDoNotMatter(EMPTY, chunks);
  }

  // ---------------------------------------------------------------- SwayIpcDecoder

  class SwayIpcDecoder {
    var buffer: Bytes
    var frames: seq<Frame>
    var error: string

    ghost function View(): State
      reads this
    {
      State(buffer, frames, error)
    }

    constructor ()
      ensures View() == EMPTY
    {
      buffer, frames, error := [], [], "";
    }

    method Append(bytes: Bytes) returns (ok: bool)
      modifies this
      ensures View() == Receive(old(View()), bytes)
      ensures ok <==> error == ""
    {
      if error != "" {
        return false;
      }
      buffer := buffer + bytes;
      ghost var start := View();
      while |buffer| >= HEADER_SIZE
        invariant error == "" && Drain(View()) == Drain(start)
        decreases |buffer|
      {
        if buffer[..6] != MAGIC {
          error := "invalid i3 IPC magic";
          return false;
        }
        var length := Number(buffer[6..10]);
        if length > MAXIMUM_PAYLOAD {
          error := "i3 IPC payload exceeds 8 MiB";
          return false;
        }
        if |buffer| < HEADER_SIZE + length {
          break;
        }
        var kind := Number(buffer[10..14]);
        frames := frames + [Frame(kind, buffer[HEADER_SIZE..HEADER_SIZE + length])];
        buffer := buffer[HEADER_SIZE + length..];
      }
      return true;
    }

    method TakeFrames() returns (taken: seq<Frame>)
      modifies this
      ensures taken == old(frames) && View() == old(View()).(frames := [])
    {
      taken := frames;
      frames := [];
    }
  }

  // ---------------------------------------------------------------- quoting a workspace name

  /** QString::replace of one character by a string, over the whole string. */
  function ReplaceAll(s: string, c: char, text: string): string {
    if s == "" then "" else (if s[0] == c then text else [s[0]]) + ReplaceAll(s[1..], c, text)
  }

  function EscapeWorkspaceName(name: string): string {
    ReplaceAll(ReplaceAll(name, '\\', "\\\\"), '"', "\\\"")
  }

  function EscapeChar(c: char): string {
    if c == '\\' then "\\\\" else if c == '"' then "\\\"" else [c]
  }

  function EscapeEach(s: string): string {
    if s == "" then "" else EscapeChar(s[0]) + EscapeEach(s[1..])
  }

  lemma {:induction false} ReplaceAllOfSum(a: string, b: string, c: char, text: string)
    ensures ReplaceAll(a + b, c, text) == ReplaceAll(a, c, text) + ReplaceAll(b, c, text)
  {
    if a == "" {
      assert a + b == b;
    } else {
      assert (a + b)[1..] == a[1..] + b;
      ReplaceAllOfSum(a[1..], b, c, text);
    }
  }

  /** Two passes over the whole string equal one pass that escapes each character. */
  lemma {:induction false} TwoPassesEscapeEach(name: string)
    ensures EscapeWorkspaceName(name) == EscapeEach(name)
  {
    if name != "" {
      TwoPassesEscapeEach(name[1..]);
      var head := if name[0] == '\\' then "\\\\" else [name[0]];
      ReplaceAllOfSum(head, ReplaceAll(name[1..], '\\', "\\\\"), '"', "\\\"");
      assert ReplaceAll("", '"', "\\\"") == "";
      if name[0] == '\\' {
        assert head[1..] == "\\" && head[1..][1..] == "";
        assert ReplaceAll(head, '"', "\\\"") == "\\\\";
      } else {
        assert head[1..] == "";
        assert ReplaceAll(head, '"', "\\\"") == EscapeChar(name[0]);
      }
    }
  }

  /** What a reader that knows backslashes finds after an opening quote: the text and what follows the closing quote. */
  function ReadQuoted(s: string): Option<(string, string)> {
    if s == "" then None
    else if s[0] == '"' then Some(("", s[1..]))
    else if s[0] == '\\' then
      if |s| == 1 then None
      else
        match ReadQuoted(s[2..])
        case None => None
        case Some(r) => Some(([s[1]] + r.0, r.1))
    else
      match ReadQuoted(s[1..])
      case None => None
      case Some(r) => Some(([s[0]] + r.0, r.1))
  }

  /** The reader recovers any name exactly and stops at the quote the command adds, never inside the name. */
  lemma {:induction false} QuotedNameIsRecovered(name: string, rest: string)
    ensures ReadQuoted(EscapeWorkspaceName(name) + "\"" + rest) == Some((name, rest))
  {
    TwoPassesEscapeEach(name);
    if name == "" {
      assert EscapeWorkspaceName(name) + "\"" + rest == "\"" + rest;
    } else {
      QuotedNameIsRecovered(name[1..], rest);
      TwoPassesEscapeEach(name[1..]);
      var tail := EscapeEach(name[1..]) + "\"" + rest;
      var text := EscapeEach(name) + "\"" + rest;
      assert text == EscapeChar(name[0]) + tail;
      if |EscapeChar(name[0])| == 2 {
        assert text[2..] == tail;
      } else {
        assert text[1..] == tail;
      }
      assert [name[0]] + name[1..] == name;
    }
  }

  function Unescape(s: string): string {
    if s == "" then ""
    else if s[0] == '\\' && |s| > 1 then [s[1]] + Unescape(s[2..])
    else [s[0]] + Unescape(s[1..])
  }

  lemma {:induction false} UnescapeInvertsEscape(name: string)
    ensures Unescape(EscapeWorkspaceName(name)) == name
  {
    TwoPassesEscapeEach(name);
    if name != "" {
      UnescapeInvertsEscape(name[1..]);
      TwoPassesEscapeEach(name[1..]);
      var text := EscapeEach(name);
      if |EscapeChar(name[0])| == 2 {
        assert text[2..] == EscapeEach(name[1..]);
      } else {
        assert text[1..] == EscapeEach(name[1..]);
      }
      assert [name[0]] + name[1..] == name;
    }
  }

  const COMMAND_PREFIX := "workspace --no-auto-back-and-forth \""

  /** The command SwayBackend sends names exactly the workspace asked for. */
  lemma CommandNamesTheWorkspace(name: string)
    ensures var command := COMMAND_PREFIX + EscapeWorkspaceName(name) + "\"";
            ReadQuoted(command[|COMMAND_PREFIX|..]) == Some((name, ""))
  {
    var command := COMMAND_PREFIX + EscapeWorkspaceName(name) + "\"";
    assert command[|COMMAND_PREFIX|..] == EscapeWorkspaceName(name) + "\"" + "";
    QuotedNameIsRecovered(name, "");
  }
}
