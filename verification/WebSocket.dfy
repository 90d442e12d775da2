/** RFC 6455 frames as the desktop test's client reads and writes them
    (windows_browser_observer.py). */
module WebSocketFrame {
  import opened Common

  const MAX_MESSAGE := 16 * 1024 * 1024

  // --- Bytes ---------------------------------------------------------------------------------

  /** Exclusive or of the low `bits` bits. */
  function XorBits(a: nat, b: nat, bits: nat): (r: nat)
    ensures r < TwoTo(bits)
  {
    if bits == 0 then 0 else 2 * XorBits(a / 2, b / 2, bits - 1) + (a + b) % 2
  }

  lemma {:induction false} XorTwice(a: nat, m: nat, bits: nat)
    requires a < TwoTo(bits)
    ensures XorBits(XorBits(a, m, bits), m, bits) == a
  {
    if bits > 0 {
      XorTwice(a / 2, m / 2, bits - 1);
      Parity(XorBits(a / 2, m / 2, bits - 1), a, m);
    }
  }

  lemma Parity(high: nat, a: nat, m: nat)
    ensures (2 * high + (a + m) % 2) / 2 == high && (2 * high + (a + m) % 2 + m) % 2 == a % 2
  {
  }

  lemma ByteRange()
    ensures TwoTo(8) == 256
  {
    assert TwoTo(4) == 16;
  }

  function Xor(a: Byte, m: Byte): Byte {
    ByteRange();
    XorBits(a, m, 8)
  }

  /** Byte k of the payload with byte k mod 4 of the mask. */
  function MaskBytes(payload: Bytes, mask: Bytes): (r: Bytes)
    requires |mask| == 4
    ensures |r| == |payload|
  {
    seq(|payload|, k requires 0 <= k < |payload| => Xor(payload[k], mask[k % 4]))
  }

  lemma MaskTwice(payload: Bytes, mask: Bytes)
    requires |mask| == 4
    ensures MaskBytes(MaskBytes(payload, mask), mask) == payload
  {
    forall k | 0 <= k < |payload| ensures MaskBytes(MaskBytes(payload, mask), mask)[k] == payload[k] {
      ByteRange();
      XorTwice(payload[k], mask[k % 4], 8);
    }
  }

  // --- One frame ---------------------------------------------------------------------------------

  datatype Frame = Frame(fin: bool, opcode: nat, payload: Bytes)

  datatype Parsed = Incomplete | Oversized | Complete(frame: Frame, rest: Bytes)

  /** How a length is written: in the second byte, or in 2 or 8 more. */
  datatype Form = Short | Medium | Long

  function Width(form: Form): nat {
    match form case Short => 0 case Medium => 2 case Long => 8
  }

  function Offset(form: Form): nat { 2 + Width(form) }

  function FormOf(code: nat): Form {
    if code == 126 then Medium else if code == 127 then Long else Short
  }

  /** The payload's length and where what follows it starts, once the header is there. */
  function Header(b: Bytes): Option<(nat, nat)> {
    if |b| < 2 then None
    else
      var form := FormOf(b[1] % 128);
      if |b| < Offset(form) then None
      else Some((if form.Short? then b[1] % 128 else FromBigEndian(b, 2, Offset(form)), Offset(form)))
  }

  /** Where the payload starts. */
  function Start(b: Bytes, offset: nat): nat
    requires |b| >= 2
  {
    offset + if b[1] >= 128 then 4 else 0
  }

  function FrameAt(b: Bytes, length: nat, offset: nat): Frame
    requires |b| >= 2 && Start(b, offset) + length <= |b|
  {
    var start := Start(b, offset);
    var payload := b[start..start + length];
    Frame(b[0] >= 128, b[0] % 16, if b[1] >= 128 then MaskBytes(payload, b[offset..offset + 4]) else payload)
  }

  /** The next complete frame of the buffer, if there is one. */
  function Parse(b: Bytes): Parsed {
    var header := Header(b);
    if header.None? then Incomplete
    else
      var (length, offset) := header.value;
      if length > MAX_MESSAGE then Oversized
      else if |b| < Start(b, offset) + length then Incomplete
      else Complete(FrameAt(b, length, offset), b[Start(b, offset) + length..])
  }

  predicate Fits(length: nat, form: Form) {
    match form
    case Short => length < 126
    case Medium => length < 0x1_0000
    case Long => length < 0x1_0000_0000_0000_0000
  }

  function LengthBytes(length: nat, masked: bool, form: Form): (r: Bytes)
    requires Fits(length, form)
    ensures |r| == 1 + Width(form)
  {
    var bit := if masked then 128 else 0;
    match form
    case Short => [bit + length]
    case Medium => [bit + 126] + BigEndian(length, Width(form))
    case Long => [bit + 127] + BigEndian(length, Width(form))
  }

  /** Everything before the mask. */
  function Prefix(fin: bool, opcode: nat, length: nat, masked: bool, form: Form): (r: Bytes)
    requires opcode < 16 && Fits(length, form)
    ensures |r| == Offset(form)
  {
    [(if fin then 128 else 0) + opcode] + LengthBytes(length, masked, form)
  }

  /** The mask, if any. */
  function Key(mask: Option<Bytes>): Bytes {
    if mask.Some? then mask.value else []
  }

  function Body(payload: Bytes, mask: Option<Bytes>): (r: Bytes)
    requires mask.Some? ==> |mask.value| == 4
    ensures |r| == |payload|
  {
    if mask.Some? then MaskBytes(payload, mask.value) else payload
  }

  /** A frame on the wire (RFC 6455, section 5.2). */
  function Wire(f: Frame, mask: Option<Bytes>, form: Form): Bytes
    requires f.opcode < 16 && Fits(|f.payload|, form) && (mask.Some? ==> |mask.value| == 4)
  {
    Prefix(f.fin, f.opcode, |f.payload|, mask.Some?, form) + Key(mask) + Body(f.payload, mask)
  }

  function Shortest(length: nat): Form {
    if length < 126 then Short else if length < 65536 then Medium else Long
  }

  /** The layout of RFC 6455, section 5.2: two octets, the length in none, two or eight
      more when the second octet says 126 or 127, then the mask. */
  lemma WireLayout(f: Frame, mask: Option<Bytes>, form: Form)
    requires f.opcode < 16 && Fits(|f.payload|, form) && (mask.Some? ==> |mask.value| == 4)
    ensures
      var b := Wire(f, mask, form);
      var more := match form case Short => 0 case Medium => 2 case Long => 8;
      && |b| == 2 + more + (if mask.Some? then 4 else 0) + |f.payload|
      && b[0] == f.opcode + (if f.fin then 128 else 0)
      && b[1] == (if mask.Some? then 128 else 0) +
                 (match form case Short => |f.payload| case Medium => 126 case Long => 127)
      && (!form.Short? ==> FromBigEndian(b, 2, 2 + more) == |f.payload|)
      && (mask.Some? ==> b[2 + more..6 + more] == mask.value)
  {
    WireHolds(f, mask, form, []);
    assert Wire(f, mask, form) + [] == Wire(f, mask, form);
  }

  /** What a complete frame's first octet says, whatever its reserved bits are. */
  lemma ParsedFirst(b: Bytes)
    requires Parse(b).Complete?
    ensures
      var f := Parse(b).frame;
      f.opcode < 16 && (b[0] / 16 * 16 + f.opcode == b[0]) && (f.fin <==> b[0] / 128 == 1)
    ensures |b| <= 14 + |Parse(b).frame.payload| + |Parse(b).rest| && |Parse(b).frame.payload| <= 16_777_216
  {
  }

  /** What the client sends: one masked frame with the shortest length. */
  method Send(opcode: nat, payload: Bytes, mask: Bytes) returns (sent: Bytes)
    requires opcode < 16 && |mask| == 4 && |payload| < 0x1_0000_0000_0000_0000
    ensures sent == Wire(Frame(true, opcode, payload), Some(mask), Shortest(|payload|))
  {
    var header := [128 + opcode];
    if |payload| < 126 {
      header := header + [128 + |payload|];
    } else if |payload| < 65536 {
      header := header + [128 + 126];
      header := header + BigEndian(|payload|, Width(Medium));
    } else {
      header := header + [128 + 127];
      header := header + BigEndian(|payload|, Width(Long));
    }
    sent := header + mask + MaskBytes(payload, mask);
  }

  lemma Powers()
    ensures Power(2) == 0x1_0000 && Power(8) == 0x1_0000_0000_0000_0000
  {
    assert Power(0) == 1 && Power(1) == 256;
    assert Power(3) == 256 * Power(2) && Power(4) == 256 * Power(3) && Power(5) == 256 * Power(4);
    assert Power(6) == 256 * Power(5) && Power(7) == 256 * Power(6) && Power(8) == 256 * Power(7);
  }

  lemma {:induction false} LongHeader(first: Byte, second: Byte, length: nat, form: Form, tail: Bytes)
    requires !form.Short? && length < Power(Width(form)) && FormOf(second % 128) == form
    ensures Header([first] + ([second] + BigEndian(length, Width(form))) + tail) == Some((length, Offset(form)))
  {
    var b := [first] + ([second] + BigEndian(length, Width(form))) + tail;
    BigEndianRoundTrip(length, Width(form));
    SameNumber(BigEndian(length, Width(form)), b, 0, Width(form), 2);
    assert b[1] == second;
  }

  lemma HeaderOfPrefix(fin: bool, opcode: nat, length: nat, masked: bool, form: Form, tail: Bytes)
    requires opcode < 16 && Fits(length, form)
    ensures
      var b := Prefix(fin, opcode, length, masked, form) + tail;
      && Header(b) == Some((length, Offset(form)))
      && b[0] == (if fin then 128 else 0) + opcode && (b[1] >= 128 <==> masked)
  {
    var first, bit := (if fin then 128 else 0) + opcode, if masked then 128 else 0;
    Powers();
    match form {
      case Short =>
      case Medium => LongHeader(first, bit + 126, length, form, tail);
      case Long => LongHeader(first, bit + 127, length, form, tail);
    }
  }

  lemma Parts(prefix: Bytes, key: Bytes, body: Bytes, rest: Bytes)
    ensures
      var b := prefix + key + body + rest;
      var start := |prefix| + |key|;
      && b == prefix + (key + body + rest) && b[|prefix|..start] == key
      && b[start..start + |body|] == body && b[start + |body|..] == rest
  {
  }

  /** The bytes of a frame, in place. */
  ghost predicate Holds(b: Bytes, f: Frame, mask: Option<Bytes>, offset: nat, rest: Bytes)
    requires mask.Some? ==> |mask.value| == 4
  {
    var start := offset + |Key(mask)|;
    && |b| >= 2 && b[0] == (if f.fin then 128 else 0) + f.opcode && (b[1] >= 128 <==> mask.Some?)
    && |b| == start + |f.payload| + |rest| && b[offset..start] == Key(mask)
    && b[start..start + |f.payload|] == Body(f.payload, mask) && b[start + |f.payload|..] == rest
  }

  lemma WireHolds(f: Frame, mask: Option<Bytes>, form: Form, rest: Bytes)
    requires f.opcode < 16 && Fits(|f.payload|, form) && (mask.Some? ==> |mask.value| == 4)
    ensures Holds(Wire(f, mask, form) + rest, f, mask, Offset(form), rest)
    ensures Header(Wire(f, mask, form) + rest) == Some((|f.payload|, Offset(form)))
  {
    var prefix, key, body := Prefix(f.fin, f.opcode, |f.payload|, mask.Some?, form), Key(mask), Body(f.payload, mask);
    Parts(prefix, key, body, rest);
    HeaderOfPrefix(f.fin, f.opcode, |f.payload|, mask.Some?, form, key + body + rest);
  }

  lemma HeldStart(b: Bytes, f: Frame, mask: Option<Bytes>, offset: nat, rest: Bytes)
    requires f.opcode < 16 && (mask.Some? ==> |mask.value| == 4) && Holds(b, f, mask, offset, rest)
    ensures Start(b, offset) == offset + |Key(mask)|
    ensures b[0] % 16 == f.opcode && (b[0] >= 128 <==> f.fin)
  {
  }

  lemma HeldFrame(b: Bytes, f: Frame, mask: Option<Bytes>, offset: nat, rest: Bytes)
    requires f.opcode < 16 && (mask.Some? ==> |mask.value| == 4) && Holds(b, f, mask, offset, rest)
    ensures Start(b, offset) == offset + |Key(mask)| && FrameAt(b, |f.payload|, offset) == f
  {
    HeldStart(b, f, mask, offset, rest);
    var start := Start(b, offset);
    var payload := b[start..start + |f.payload|];
    assert payload == Body(f.payload, mask);
    if mask.Some? {
      var key := b[offset..offset + 4];
      assert key == mask.value;
      MaskTwice(f.payload, mask.value);
      assert MaskBytes(payload, key) == f.payload;
    }
  }

  /** Every frame of at most 16 MiB is read back, in each length form, masked or
      not; a longer one is refused. */
  lemma ParseUndoesWire(f: Frame, mask: Option<Bytes>, form: Form, rest: Bytes)
    requires f.opcode < 16 && Fits(|f.payload|, form) && (mask.Some? ==> |mask.value| == 4)
    ensures Parse(Wire(f, mask, form) + rest) == if |f.payload| <= MAX_MESSAGE then Complete(f, rest) else Oversized
  {
    WireHolds(f, mask, form, rest);
    HeldFrame(Wire(f, mask, form) + rest, f, mask, Offset(form), rest);
  }

  lemma HeaderStable(b: Bytes, more: Bytes)
    requires Header(b).Some?
    ensures Header(b + more) == Header(b) && (b + more)[0] == b[0] && (b + more)[1] == b[1]
  {
    SameNumber(b, b + more, 2, Offset(FormOf(b[1] % 128)), 0);
  }

  lemma FrameStable(b: Bytes, more: Bytes, length: nat, offset: nat)
    requires |b| >= 2 && Start(b, offset) + length <= |b|
    ensures Start(b + more, offset) == Start(b, offset)
    ensures FrameAt(b + more, length, offset) == FrameAt(b, length, offset)
  {
    var start := Start(b, offset);
    assert (b + more)[start..start + length] == b[start..start + length];
    if b[1] >= 128 { assert (b + more)[offset..offset + 4] == b[offset..offset + 4]; }
  }

  lemma RestStable(b: Bytes, more: Bytes, k: nat)
    requires k <= |b|
    ensures (b + more)[k..] == b[k..] + more
  {
  }

  /** More bytes do not change a frame already there, nor a refusal. */
  lemma ParseStable(b: Bytes, more: Bytes)
    ensures Parse(b).Complete? ==>
      |Parse(b).rest| < |b| && Parse(b + more) == Complete(Parse(b).frame, Parse(b).rest + more)
    ensures Parse(b).Oversized? ==> Parse(b + more).Oversized?
  {
    if Header(b).Some? {
      HeaderStable(b, more);
      if Parse(b).Complete? {
        var (length, offset) := Header(b).value;
        FrameStable(b, more, length, offset);
        RestStable(b, more, Start(b, offset) + length);
      }
    }
  }
}

/** The client: frames taken from a buffer that fills in arbitrary pieces, and the
    messages they make. */
module WebSocket {
  import opened Common
  import opened WebSocketFrame

  // --- The whole stream -------------------------------------------------------------------------------

  /** Takes the next complete frame of a buffer, if there is one. */
  type Parser = Bytes -> Parsed

  /** More bytes do not change a frame already there, nor a refusal. */
  ghost predicate Stable(parse: Parser, b: Bytes, more: Bytes) {
    && (parse(b).Complete? ==>
          |parse(b).rest| < |b| && parse(b + more) == Complete(parse(b).frame, parse(b).rest + more))
    && (parse(b).Oversized? ==> parse(b + more).Oversized?)
  }

  ghost predicate Framing(parse: Parser) {
    forall b, more :: Stable(parse, b, more)
  }

  /** The frames of an undivided stream, and what is left of it. */
  datatype Stream = Stream(frames: seq<Frame>, rest: Bytes)

  function All(parse: Parser, b: Bytes): Stream
    decreases |b|
  {
    var p := parse(b);
    if p.Complete? && |p.rest| < |b| then Stream([p.frame] + All(parse, p.rest).frames, All(parse, p.rest).rest)
    else Stream([], b)
  }

  /** Parsing a stream in two pieces gives the frames of the whole. */
  lemma {:induction false} AllSplit(parse: Parser, b: Bytes, more: Bytes)
    requires Framing(parse)
    ensures
      var tail := All(parse, All(parse, b).rest + more);
      All(parse, b + more) == Stream(All(parse, b).frames + tail.frames, tail.rest)
    decreases |b|
  {
    assert Stable(parse, b, more);
    var p := parse(b);
    if p.Complete? {
      AllSplit(parse, p.rest, more);
      var tail := All(parse, All(parse, p.rest).rest + more);
      assert [p.frame] + (All(parse, p.rest).frames + tail.frames) ==
        [p.frame] + All(parse, p.rest).frames + tail.frames;
    } else {
      assert [] + All(parse, b + more).frames == All(parse, b + more).frames;
    }
  }

  /** The client's own parser is such a one. */
  lemma ParseIsFraming()
    ensures Framing(Parse)
  {
    forall b, more ensures Stable(Parse, b, more) {
      ParseStable(b, more);
    }
  }

  // --- Messages ------------------------------------------------------------------------------------------

  /** What a received frame makes the client do. */
  datatype Event =
    | Message(text: Bytes)
    | Pong(payload: Bytes)
    | ClosedByPeer
    | Interleaved
    | UnexpectedContinuation
    | UnexpectedOpcode(opcode: nat)
    | OversizedMessage

  datatype Assembly = Assembly(partial: Option<Bytes>, events: seq<Event>)

  function Gather(data: Bytes, fin: bool): Assembly {
    if |data| > MAX_MESSAGE then Assembly(Some(data), [OversizedMessage])
    else if fin then Assembly(None, [Message(data)])
    else Assembly(Some(data), [])
  }

  function Assemble(partial: Option<Bytes>, f: Frame): (r: Assembly)
    ensures |r.events| <= 1
  {
    if f.opcode == 8 then Assembly(partial, [ClosedByPeer])
    else if f.opcode == 9 then Assembly(partial, [Pong(f.payload)])
    else if f.opcode == 10 then Assembly(partial, [])
    else if f.opcode == 1 || f.opcode == 2 then
      if partial.Some? then Assembly(partial, [Interleaved]) else Gather(f.payload, f.fin)
    else if f.opcode == 0 then
      if partial.None? then Assembly(None, [UnexpectedContinuation]) else Gather(partial.value + f.payload, f.fin)
    else Assembly(partial, [UnexpectedOpcode(f.opcode)])
  }

  /** What a frame of each kind does: a close, a stray continuation, a message inside
      another and an unknown opcode end the call, and leave the message in progress. */
  lemma AssembleByOpcode(partial: Option<Bytes>, f: Frame)
    ensures f.opcode == 8 ==> Assemble(partial, f) == Assembly(partial, [ClosedByPeer])
    ensures f.opcode == 9 ==> Assemble(partial, f) == Assembly(partial, [Pong(f.payload)])
    ensures f.opcode == 10 ==> Assemble(partial, f) == Assembly(partial, [])
    ensures f.opcode == 0 && partial.None? ==> Assemble(partial, f) == Assembly(None, [UnexpectedContinuation])
    ensures f.opcode in {1, 2} && partial.Some? ==> Assemble(partial, f) == Assembly(partial, [Interleaved])
    ensures f.opcode in {3, 4, 5, 6, 7} || f.opcode > 10 ==>
      Assemble(partial, f) == Assembly(partial, [UnexpectedOpcode(f.opcode)])
  {
  }

  /** What data does: the message in progress grows by the payload, up to 16 MiB, and is
      delivered by its last frame. */
  lemma AssembleData(partial: Option<Bytes>, f: Frame)
    requires if partial.None? then f.opcode in {1, 2} else f.opcode == 0
    ensures
      var data := if partial.Some? then partial.value + f.payload else f.payload;
      Assemble(partial, f) ==
        if |data| > 16_777_216 then Assembly(Some(data), [OversizedMessage])
        else if f.fin then Assembly(None, [Message(data)]) else Assembly(Some(data), [])
  {
  }

  /** What all these frames make of an earlier state. */
  function Fold(a: Assembly, fs: seq<Frame>): Assembly {
    if fs == [] then a
    else
      var before := Fold(a, fs[..|fs| - 1]);
      var next := Assemble(before.partial, fs[|fs| - 1]);
      Assembly(next.partial, before.events + next.events)
  }

  const NOTHING := Assembly(None, [])

  lemma {:induction false} FoldOne(a: Assembly, fs: seq<Frame>, f: Frame)
    ensures
      var next := Assemble(Fold(a, fs).partial, f);
      Fold(a, fs + [f]) == Assembly(next.partial, Fold(a, fs).events + next.events)
  {
    assert (fs + [f])[..|fs|] == fs;
  }

  /** One message as a sender may split it: data, with pings and pongs between. */
  datatype Piece = Data(payload: Bytes) | Ping(payload: Bytes) | Answer(payload: Bytes)

  function Joined(ps: seq<Piece>): Bytes {
    if ps == [] then [] else Joined(ps[..|ps| - 1]) + if ps[|ps| - 1].Data? then ps[|ps| - 1].payload else []
  }

  function Pongs(ps: seq<Piece>): seq<Event> {
    if ps == [] then [] else Pongs(ps[..|ps| - 1]) + if ps[|ps| - 1].Ping? then [Pong(ps[|ps| - 1].payload)] else []
  }

  predicate Started(ps: seq<Piece>) {
    exists k :: 0 <= k < |ps| && ps[k].Data?
  }

  function FrameOf(kind: nat, started: bool, p: Piece, fin: bool): Frame {
    match p
    case Data(payload) => Frame(fin, if started then 0 else kind, payload)
    case Ping(payload) => Frame(true, 9, payload)
    case Answer(payload) => Frame(true, 10, payload)
  }

  /** The pieces as frames, none of them the message's last. */
  function Fragments(kind: nat, ps: seq<Piece>): seq<Frame> {
    if ps == [] then []
    else
      var n := |ps| - 1;
      Fragments(kind, ps[..n]) + [FrameOf(kind, Started(ps[..n]), ps[n], false)]
  }

  function Begun(started: bool, joined: Bytes): Option<Bytes> {
    if started then Some(joined) else None
  }

  /** One more piece of a message. */
  lemma AssemblePiece(kind: nat, started: bool, joined: Bytes, p: Piece)
    requires kind == 1 || kind == 2
    requires (!started ==> joined == []) && (p.Data? ==> |joined + p.payload| <= MAX_MESSAGE)
    ensures Assemble(Begun(started, joined), FrameOf(kind, started, p, false))
         == Assembly(Begun(started || p.Data?, if p.Data? then joined + p.payload else joined),
                     if p.Ping? then [Pong(p.payload)] else [])
    ensures p.Data? ==>
      Assemble(Begun(started, joined), FrameOf(kind, started, p, true)) == Assembly(None, [Message(joined + p.payload)])
  {
    if !started && p.Data? { assert joined + p.payload == p.payload; }
  }

  lemma JoinedGrows(ps: seq<Piece>)
    requires ps != []
    ensures |Joined(ps[..|ps| - 1])| <= |Joined(ps)|
    ensures !ps[|ps| - 1].Data? ==> Joined(ps) == Joined(ps[..|ps| - 1])
    ensures !ps[|ps| - 1].Ping? ==> Pongs(ps) == Pongs(ps[..|ps| - 1])
  {
  }

  lemma StartedBefore(ps: seq<Piece>)
    requires ps != []
    ensures Started(ps) <==> Started(ps[..|ps| - 1]) || ps[|ps| - 1].Data?
  {
    var n := |ps| - 1;
    assert forall k :: 0 <= k < n ==> ps[..n][k] == ps[k];
  }

  lemma {:induction false} FragmentsGather(kind: nat, ps: seq<Piece>)
    requires kind == 1 || kind == 2
    requires |Joined(ps)| <= MAX_MESSAGE
    ensures Fold(NOTHING, Fragments(kind, ps)) == Assembly(Begun(Started(ps), Joined(ps)), Pongs(ps))
    ensures !Started(ps) ==> Joined(ps) == []
  {
    if ps != [] {
      var n := |ps| - 1;
      JoinedGrows(ps);
      FragmentsGather(kind, ps[..n]);
      StartedBefore(ps);
      AssemblePiece(kind, Started(ps[..n]), Joined(ps[..n]), ps[n]);
      FoldOne(NOTHING, Fragments(kind, ps[..n]), FrameOf(kind, Started(ps[..n]), ps[n], false));
    }
  }

  /** However a message of at most 16 MiB is fragmented, and whatever control frames
      come between, it is delivered once and whole, after one pong per ping. */
  lemma {:induction false} ReassemblesFragments(kind: nat, ps: seq<Piece>, last: Bytes)
    requires kind == 1 || kind == 2
    requires |Joined(ps) + last| <= MAX_MESSAGE
    ensures
      var final := Frame(true, if Started(ps) then 0 else kind, last);
      Fold(NOTHING, Fragments(kind, ps) + [final]) == Assembly(None, Pongs(ps) + [Message(Joined(ps) + last)])
  {
    assert |Joined(ps)| <= |Joined(ps) + last|;
    FragmentsGather(kind, ps);
    AssemblePiece(kind, Started(ps), Joined(ps), Data(last));
    FoldOne(NOTHING, Fragments(kind, ps), FrameOf(kind, Started(ps), Data(last), true));
  }

  /** In the middle of a message (of the pieces `ps`) a frame that cannot follow ends it
      with its own error, after the pongs before it. */
  lemma {:induction false} FragmentsEnd(kind: nat, ps: seq<Piece>, f: Frame)
    requires kind == 1 || kind == 2
    requires |Joined(ps)| <= MAX_MESSAGE
    ensures
      var events := Fold(NOTHING, Fragments(kind, ps) + [f]).events;
      && (f.opcode == 8 ==> events == Pongs(ps) + [ClosedByPeer])
      && (f.opcode in {1, 2} && Started(ps) ==> events == Pongs(ps) + [Interleaved])
      && (f.opcode == 0 && !Started(ps) ==> events == Pongs(ps) + [UnexpectedContinuation])
      && (f.opcode > 10 || f.opcode in {3, 4, 5, 6, 7} ==> events == Pongs(ps) + [UnexpectedOpcode(f.opcode)])
      && (f.opcode == 0 && Started(ps) && |Joined(ps)| + |f.payload| > 16_777_216 ==>
            events == Pongs(ps) + [OversizedMessage])
  {
    FragmentsGather(kind, ps);
    FoldOne(NOTHING, Fragments(kind, ps), f);
    AssembleByOpcode(Begun(Started(ps), Joined(ps)), f);
    if f.opcode == 0 && Started(ps) { AssembleData(Some(Joined(ps)), f); }
  }

  // --- The client ---------------------------------------------------------------------------------------

  /** What the connection gives next: bytes, or nothing in time, or its end. */
  datatype Read = Chunk(data: Bytes) | Silence | Hangup

  function Sent(net: seq<Read>): Bytes {
    if net == [] then [] else (if net[0].Chunk? then net[0].data else []) + Sent(net[1..])
  }

  lemma {:induction false} Arrives(parse: Parser, received: Bytes, done: seq<Frame>, buffer: Bytes, data: Bytes)
    requires Framing(parse) && All(parse, received) == Stream(done + All(parse, buffer).frames, All(parse, buffer).rest)
    requires parse(buffer).Incomplete?
    ensures
      var after := All(parse, buffer + data);
      All(parse, received + data) == Stream(done + after.frames, after.rest)
  {
    AllSplit(parse, received, data);
    assert done + [] == done;
  }

  lemma {:induction false} SentSplit(received: Bytes, net: seq<Read>)
    requires net != []
    ensures net[0].Chunk? ==> received + Sent(net) == received + net[0].data + Sent(net[1..])
    ensures !net[0].Chunk? || net[0].data == [] ==> Sent(net) == Sent(net[1..])
  {
    if !net[0].Chunk? || net[0].data == [] { assert [] + Sent(net[1..]) == Sent(net[1..]); }
  }

  datatype Received = Text(message: Bytes) | Problem(event: Event) | TimedOut | Disconnected | OversizedFrame

  class Client {
    const parse: Parser
    var buffer: Bytes
    var partial: Option<Bytes>
    /** The connection's future, to the client unknown. */
    var net: seq<Read>
    /** The frames sent in answer. */
    var out: seq<Frame>
    ghost var received: Bytes
    ghost var done: seq<Frame>
    /** Everything the client has done about its frames. */
    ghost var events: seq<Event>

    /** After the handshake, with what was read beyond it. */
    constructor (net: seq<Read>, leftover: Bytes)
      ensures Valid() && parse == Parse && this.net == net && received == leftover && events == [] && out == []
    {
      ParseIsFraming();
      parse := Parse;
      buffer, partial, this.net, out := leftover, None, net, [];
      received, done, events := leftover, [], [];
    }

    /** The frames handled and those in the buffer are the frames of everything
        received, and the rest of the buffer is the rest. */
    ghost predicate Valid()
      reads this
    {
      && Framing(parse)
      && All(parse, received) == Stream(done + All(parse, buffer).frames, All(parse, buffer).rest)
      && Fold(NOTHING, done) == Assembly(partial, events)
    }

    /** One read; an empty chunk is the connection's end. */
    method Fill() returns (problem: Option<Received>)
      requires Valid() && parse(buffer).Incomplete?
      modifies `buffer, `net, `received
      ensures Valid() && received + Sent(net) == old(received + Sent(net))
      ensures problem.Some? ==> buffer == old(buffer) && (problem.value.TimedOut? || problem.value.Disconnected?)
      ensures problem.None? || problem.value.Disconnected? ==> |net| < |old(net)|
      ensures |net| <= |old(net)| && (old(net) != [] ==> |net| < |old(net)|)
    {
      if net == [] { return Some(TimedOut); }
      SentSplit(received, net);
      var read := net[0];
      net := net[1..];
      match read {
        case Silence => problem := Some(TimedOut);
        case Hangup => problem := Some(Disconnected);
        case Chunk(data) =>
          if data == [] { return Some(Disconnected); }
          Arrives(parse, received, done, buffer, data);
          buffer := buffer + data;
          received := received + data;
          problem := None;
      }
    }

    /** The next complete frame; a frame not complete stays in the buffer. */
    method NextFrame() returns (frame: Option<Frame>, problem: Received)
      requires Valid()
      modifies `buffer, `net, `received
      ensures received + Sent(net) == old(received + Sent(net)) && |net| <= |old(net)|
      ensures frame.Some? ==>
        && All(parse, received) == Stream(done + [frame.value] + All(parse, buffer).frames, All(parse, buffer).rest)
        && (|net| < |old(net)| || |buffer| < |old(buffer)|)
      ensures frame.None? ==> Valid() && Halted(problem, old(net))
    {
      problem := TimedOut;
      while true
        invariant Valid() && received + Sent(net) == old(received + Sent(net))
        invariant |net| < |old(net)| || (net == old(net) && buffer == old(buffer))
        decreases |net|
      {
        match parse(buffer) {
          case Complete(f, rest) =>
            assert Stable(parse, buffer, []);
            assert All(parse, buffer).frames == [f] + All(parse, rest).frames;
            assert done + ([f] + All(parse, rest).frames) == done + [f] + All(parse, rest).frames;
            buffer := rest;
            return Some(f), problem;
          case Oversized => return None, OversizedFrame;
          case Incomplete =>
        }
        var failed := Fill();
        if failed.Some? { return None, failed.value; }
      }
    }

    /** A read stopped without a frame: nothing in time, the end, or a frame that is
        refused whatever follows. No complete frame is left. */
    ghost predicate Halted(r: Received, earlier: seq<Read>)
      reads this
    {
      && Stopped(r) && All(parse, buffer).frames == [] && |net| <= |earlier|
      && (if r.OversizedFrame? then parse(buffer).Oversized? else |net| < |earlier| || (net == [] && r.TimedOut?))
    }

    /** Acts on a frame: `answer` is how the call ends, unless it goes on. */
    method Handle(f: Frame) returns (answer: Option<Received>)
      requires Framing(parse)
      requires All(parse, received) == Stream(done + [f] + All(parse, buffer).frames, All(parse, buffer).rest)
      requires Fold(NOTHING, done) == Assembly(partial, events)
      modifies `partial, `out, `done, `events
      ensures Valid() && done == old(done) + [f]
      ensures out == old(out) + if f.opcode == 9 then [Frame(true, 10, f.payload)] else []
      ensures answer.None? ==> OnlyPongs(old(events), events)
      ensures answer.Some? ==> Concludes(answer.value, old(events), events)
    {
      ghost var next := Assemble(partial, f);
      FoldOne(NOTHING, done, f);
      OneMoreEvent(events, next.events);
      answer := Act(f);
      done := done + [f];
      events := events + next.events;
    }

    method Act(f: Frame) returns (answer: Option<Received>)
      modifies `partial, `out
      ensures partial == Assemble(old(partial), f).partial
      ensures answer == Answered(Assemble(old(partial), f).events)
      ensures out == old(out) + if f.opcode == 9 then [Frame(true, 10, f.payload)] else []
      ensures f.opcode == 8 ==> answer == Some(Problem(ClosedByPeer))
      ensures f.opcode in {1, 2} && old(partial).Some? ==> answer == Some(Problem(Interleaved))
      ensures f.opcode == 0 && old(partial).None? ==> answer == Some(Problem(UnexpectedContinuation))
      ensures f.opcode in {3, 4, 5, 6, 7} || f.opcode > 10 ==> answer == Some(Problem(UnexpectedOpcode(f.opcode)))
      ensures f.opcode in {9, 10} ==> answer.None?
    {
      answer := None;
      if f.opcode == 8 {
        answer := Some(Problem(ClosedByPeer));
      } else if f.opcode == 9 {
        out := out + [Frame(true, 10, f.payload)];
      } else if f.opcode == 10 {
      } else if f.opcode == 1 || f.opcode == 2 {
        if partial.Some? {
          answer := Some(Problem(Interleaved));
        } else {
          partial := Some(f.payload);
          answer := Finish(f.fin);
        }
      } else if f.opcode == 0 {
        if partial.None? {
          answer := Some(Problem(UnexpectedContinuation));
        } else {
          partial := Some(partial.value + f.payload);
          answer := Finish(f.fin);
        }
      } else {
        answer := Some(Problem(UnexpectedOpcode(f.opcode)));
      }
    }

    /** Checks the gathered message, and delivers it when it is whole. */
    method Finish(fin: bool) returns (answer: Option<Received>)
      requires partial.Some?
      modifies `partial
      ensures partial == Gather(old(partial).value, fin).partial
      ensures answer == Answered(Gather(old(partial).value, fin).events)
    {
      answer := None;
      if |partial.value| > MAX_MESSAGE {
        answer := Some(Problem(OversizedMessage));
      } else if fin {
        answer := Some(Text(partial.value));
        partial := None;
      }
    }

    /** How a call ended, after only pongs since `before`. */
    ghost predicate Ends(r: Received, earlier: seq<Read>, before: seq<Event>)
      reads this
    {
      if Stopped(r) then Halted(r, earlier) && OnlyPongs(before, events) else Concludes(r, before, events)
    }

    /** The next text message. Pings are answered on the way; a read that times out
        loses nothing. */
    method Receive() returns (r: Received)
      requires Valid()
      modifies `buffer, `partial, `net, `out, `received, `done, `events
      ensures Valid() && received + Sent(net) == old(received + Sent(net))
      ensures Ends(r, old(net), old(events))
      ensures
        || |net| < |old(net)| || (|net| == |old(net)| && |buffer| < |old(buffer)|)
        || (net == [] && r.TimedOut?) || r.OversizedFrame?
    {
      ghost var script := received + Sent(net);
      ghost var taken := false;
      while true
        invariant Valid() && received + Sent(net) == script && OnlyPongs(old(events), events)
        invariant Less(net, buffer, old(net), old(buffer)) || (!taken && net == old(net) && buffer == old(buffer))
        decreases |net|, |buffer|
      {
        var frame, problem := NextFrame();
        if frame.None? { return problem; }
        ghost var earlier := events;
        var answer := Handle(frame.value);
        taken := true;
        if answer.Some? {
          PongsThen(old(events), earlier, events, answer.value);
          return answer.value;
        }
        PongsOn(old(events), earlier, events);
      }
    }

    /** Reads to the end of the connection's script: whatever the pieces the bytes
        came in and wherever reads timed out, what happened is what the undivided
        stream says. */
    method ReceiveAll()
      requires Valid()
      modifies this
      ensures Valid()
      ensures events == Fold(NOTHING, All(parse, old(received + Sent(net))).frames).events
    {
      ghost var all := received + Sent(net);
      while true
        invariant Valid() && received + Sent(net) == all
        decreases |net|, |buffer|
      {
        var r := Receive();
        if r.OversizedFrame? || (r.TimedOut? && net == []) { break; }
      }
      NothingMore(parse, received, done, buffer, Sent(net));
    }
  }

  /** Only pongs were added. */
  ghost predicate OnlyPongs(before: seq<Event>, after: seq<Event>) {
    before <= after && forall k :: |before| <= k < |after| ==> after[k].Pong?
  }

  /** Fewer reads to come, or as many with less in the buffer. */
  predicate Less(net: seq<Read>, buffer: Bytes, net0: seq<Read>, buffer0: Bytes) {
    |net| < |net0| || (|net| == |net0| && |buffer| < |buffer0|)
  }

  lemma PongsOn(a: seq<Event>, b: seq<Event>, c: seq<Event>)
    requires OnlyPongs(a, b) && OnlyPongs(b, c)
    ensures OnlyPongs(a, c)
  {
  }

  lemma PongsThen(a: seq<Event>, b: seq<Event>, c: seq<Event>, r: Received)
    requires OnlyPongs(a, b) && Concludes(r, b, c)
    ensures Concludes(r, a, c)
  {
    PongsOn(a, b, c[..|c| - 1]);
  }

  /** The last event is what the call returns or raises, after only pongs. */
  ghost predicate Concludes(r: Received, before: seq<Event>, after: seq<Event>) {
    (r.Text? || r.Problem?) && after != [] && OnlyPongs(before, after[..|after| - 1])
      && after[|after| - 1] == EventOf(r)
  }

  lemma OneMoreEvent(events: seq<Event>, added: seq<Event>)
    requires |added| <= 1
    ensures Answered(added).None? ==> OnlyPongs(events, events + added)
    ensures Answered(added).Some? ==> Concludes(Answered(added).value, events, events + added)
  {
    if added != [] { assert (events + added)[..|events + added| - 1] == events; }
  }

  /** With no frame left to take, the frames handled are those of the whole. */
  lemma {:induction false} NothingMore(parse: Parser, received: Bytes, done: seq<Frame>, buffer: Bytes, more: Bytes)
    requires Framing(parse) && All(parse, received) == Stream(done + All(parse, buffer).frames, All(parse, buffer).rest)
    requires All(parse, buffer).frames == [] && (more == [] || parse(buffer).Oversized?)
    ensures All(parse, received + more).frames == done
  {
    AllSplit(parse, received, more);
    assert done + [] == done;
    if more == [] {
      assert buffer + more == buffer;
    } else {
      assert Stable(parse, buffer, more);
    }
  }

  predicate Stopped(r: Received) {
    r.TimedOut? || r.Disconnected? || r.OversizedFrame?
  }

  function EventOf(r: Received): Event
    requires r.Text? || r.Problem?
  {
    match r
    case Text(message) => Message(message)
    case Problem(event) => event
  }

  /** How a call ends after these events of one frame, unless it goes on. */
  function Answered(events: seq<Event>): (r: Option<Received>)
    ensures r.Some? ==> r.value.Text? || r.value.Problem?
  {
    if events == [] || events[0].Pong? then None
    else if events[0].Message? then Some(Text(events[0].text))
    else Some(Problem(events[0]))
  }
}
