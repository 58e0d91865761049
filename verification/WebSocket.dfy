/** The WebSocket client: one frame on the wire (sections 5.2 and 5.3 of RFC 6455), messages in
    fragments with control frames between them (sections 5.4 and 5.5), over a byte stream that hands
    out its bytes in pieces of any size. */
module WebSocket {
  import opened Wrappers

  type Byte = x: int | 0 <= x < 256

  const MAX_MESSAGE: nat := 16 * 1024 * 1024

  const CONTINUATION := 0
  const TEXT := 1
  const BINARY := 2
  const CLOSE := 8
  const PING := 9
  const PONG := 10

  // ---------------------------------------------------------------- masking

  function Bit(k: nat): nat {
    if k == 0 then 1 else 2 * Bit(k - 1)
  }

  /** Exclusive or of the k low bits. */
  function XorBits(a: nat, b: nat, k: nat): (r: nat)
    ensures r < Bit(k)
  {
    if k == 0 then 0 else 2 * XorBits(a / 2, b / 2, k - 1) + if a % 2 == b % 2 then 0 else 1
  }

  lemma {:induction false} XorBitsTwice(a: nat, b: nat, k: nat)
    requires a < Bit(k)
    ensures XorBits(XorBits(a, b, k), b, k) == a
  {
    if k > 0 {
      XorBitsTwice(a / 2, b / 2, k - 1);
      assert XorBits(a, b, k) / 2 == XorBits(a / 2, b / 2, k - 1);
    }
  }

  function Xor(a: Byte, b: Byte): Byte {
    EightBits();
    XorBits(a, b, 8)
  }

  lemma EightBits()
    ensures Bit(8) == 256
  {
    assert Bit(4) == 16;
  }

  lemma XorTwice(a: Byte, b: Byte)
    ensures Xor(Xor(a, b), b) == a
  {
    EightBits();
    XorBitsTwice(a, b, 8);
  }

  function Masked(payload: seq<Byte>, mask: seq<Byte>): (r: seq<Byte>)
    requires |mask| == 4
    ensures |r| == |payload| && forall i :: 0 <= i < |payload| ==> r[i] == Xor(payload[i], mask[i % 4])
  {
    seq(|payload|, i requires 0 <= i < |payload| => Xor(payload[i], mask[i % 4]))
  }

  lemma MaskTwice(payload: seq<Byte>, mask: seq<Byte>)
    requires |mask| == 4
    ensures Masked(Masked(payload, mask), mask) == payload
  {
    forall i | 0 <= i < |payload|
      ensures Masked(Masked(payload, mask), mask)[i] == payload[i]
    {
      XorTwice(payload[i], mask[i % 4]);
    }
  }

  // ---------------------------------------------------------------- lengths

  function Power(k: nat): nat {
    if k == 0 then 1 else 256 * Power(k - 1)
  }

  /** k bytes, the most significant first. */
  function Network(n: nat, k: nat): (s: seq<Byte>)
    ensures |s| == k
  {
    if k == 0 then [] else Network(n / 256, k - 1) + [n % 256]
  }

  function Number(s: seq<Byte>): nat {
    if s == [] then 0 else 256 * Number(s[..|s| - 1]) + s[|s| - 1]
  }

  lemma {:induction false} NumberOfNetwork(n: nat, k: nat)
    requires n < Power(k)
    ensures Number(Network(n, k)) == n
  {
    if k > 0 {
      NumberOfNetwork(n / 256, k - 1);
      assert Network(n, k)[..k - 1] == Network(n / 256, k - 1);
    }
  }

  lemma Powers()
    ensures Power(2) == 0x1_0000 && Power(8) == 0x1_0000_0000_0000_0000
  {
    assert Power(4) == 0x1_0000_0000;
  }

  // ---------------------------------------------------------------- one frame

  datatype Frame = Frame(fin: bool, opcode: int, payload: seq<Byte>)

  datatype Form = Small | Medium | Large

  predicate Fits(form: Form, n: nat) {
    match form
    case Small => n < 126
    case Medium => n < 0x1_0000
    case Large => n < 0x1_0000_0000_0000_0000
  }

  function Length(form: Form, n: nat): seq<Byte>
    requires Fits(form, n)
  {
    match form
    case Small => []
    case Medium => Network(n, 2)
    case Large => Network(n, 8)
  }

  function Code(form: Form, n: nat): int {
    match form
    case Small => n
    case Medium => 126
    case Large => 127
  }

  /** The two fixed bytes and the extended length. */
  function Head(f: Frame, form: Form, masked: bool): (h: seq<Byte>)
    requires 0 <= f.opcode < 16 && Fits(form, |f.payload|)
    ensures |h| == 2 + |Length(form, |f.payload|)|
  {
    [(if f.fin then 128 else 0) + f.opcode, (if masked then 128 else 0) + Code(form, |f.payload|)]
    + Length(form, |f.payload|)
  }

  /** A frame on the wire, in one of the three length forms, masked or not. */
  function Encode(f: Frame, form: Form, mask: Option<seq<Byte>>): seq<Byte>
    requires 0 <= f.opcode < 16 && Fits(form, |f.payload|) && (mask.Some? ==> |mask.value| == 4)
  {
    Head(f, form, mask.Some?) + if mask.Some? then mask.value + Masked(f.payload, mask.value) else f.payload
  }

  datatype Decoded = Whole(frame: Frame, size: nat) | Short | TooLong

  function LengthSize(second: Byte): nat {
    if second % 128 == 126 then 2 else if second % 128 == 127 then 8 else 0
  }

  /** The declared payload length, once the bytes that hold it are there. */
  function Declared(s: seq<Byte>): nat
    requires |s| >= 2 && |s| >= 2 + LengthSize(s[1])
  {
    if s[1] % 128 < 126 then s[1] % 128 else Number(s[2..2 + LengthSize(s[1])])
  }

  function MaskSize(second: Byte): nat {
    if second >= 128 then 4 else 0
  }

  /** What a reader finds at the front of a byte stream. */
  function Decode(s: seq<Byte>): (d: Decoded)
    ensures d.Whole? ==> 2 <= d.size <= |s| && |d.frame.payload| <= MAX_MESSAGE
  {
    if |s| < 2 || |s| < 2 + LengthSize(s[1]) then Short
    else if Declared(s) > MAX_MESSAGE then TooLong
    else
      var start := 2 + LengthSize(s[1]) + MaskSize(s[1]);
      if |s| < start + Declared(s) then Short
      else
        var data := s[start..start + Declared(s)];
        Whole(Frame(s[0] >= 128, s[0] % 16, if s[1] >= 128 then Masked(data, s[start - 4..start]) else data),
              start + Declared(s))
  }

  lemma EncodedHead(f: Frame, form: Form, mask: Option<seq<Byte>>, rest: seq<Byte>)
    requires 0 <= f.opcode < 16 && Fits(form, |f.payload|) && (mask.Some? ==> |mask.value| == 4)
    ensures var s := Encode(f, form, mask) + rest;
      && |s| >= 2 + LengthSize(s[1]) && (s[0] >= 128) == f.fin && s[0] % 16 == f.opcode && (s[1] >= 128) == mask.Some?
      && LengthSize(s[1]) == |Length(form, |f.payload|)| && Declared(s) == |f.payload|
  {
    var s, n := Encode(f, form, mask) + rest, |f.payload|;
    var bytes := Length(form, n);
    assert s[0] == Head(f, form, mask.Some?)[0] && s[1] == Head(f, form, mask.Some?)[1];
    assert s[1] % 128 == Code(form, n);
    assert s[2..2 + |bytes|] == bytes;
    LengthIsRead(form, n);
  }

  lemma LengthIsRead(form: Form, n: nat)
    requires Fits(form, n)
    ensures !form.Small? ==> Number(Length(form, n)) == n
  {
    Powers();
    if form.Medium? {
      NumberOfNetwork(n, 2);
    } else if form.Large? {
      NumberOfNetwork(n, 8);
    }
  }

  lemma Layout(head: seq<Byte>, mask: seq<Byte>, data: seq<Byte>, rest: seq<Byte>)
    ensures var s, start := (head + (mask + data)) + rest, |head| + |mask|;
      s[|head|..start] == mask && s[start..start + |data|] == data && s[start + |data|..] == rest
  {
  }

  /** Reading back what was written: opcode, final bit and payload, in every length form, under any
      mask or none, and whatever follows on the stream. */
  lemma DecodesBack(f: Frame, form: Form, mask: Option<seq<Byte>>, rest: seq<Byte>)
    requires 0 <= f.opcode < 16 && Fits(form, |f.payload|) && (mask.Some? ==> |mask.value| == 4)
    requires |f.payload| <= MAX_MESSAGE
    ensures Decode(Encode(f, form, mask) + rest) == Whole(f, |Encode(f, form, mask)|)
    ensures (Encode(f, form, mask) + rest)[|Encode(f, form, mask)|..] == rest
  {
    var head := Head(f, form, mask.Some?);
    EncodedHead(f, form, mask, rest);
    if mask.Some? {
      Layout(head, mask.value, Masked(f.payload, mask.value), rest);
      MaskTwice(f.payload, mask.value);
    } else {
      assert [] + f.payload == f.payload;
      Layout(head, [], f.payload, rest);
    }
  }

  /** A longer payload is refused from its length alone. */
  lemma RefusesLong(f: Frame, form: Form, mask: Option<seq<Byte>>, rest: seq<Byte>)
    requires 0 <= f.opcode < 16 && Fits(form, |f.payload|) && (mask.Some? ==> |mask.value| == 4)
    requires |f.payload| > MAX_MESSAGE
    ensures Decode(Encode(f, form, mask) + rest) == TooLong
  {
    EncodedHead(f, form, mask, rest);
  }

  // ---------------------------------------------------------------- one message

  datatype Error = Closed | PeerClosed | TooLarge | Unexpected(opcode: int) | NotText

  datatype Outcome = Message(text: seq<Byte>) | Failure(error: Error)

  /** What one frame does to the message under assembly: its kind and what has come of it so far. */
  datatype Step = Done(outcome: Outcome) | Next(kind: Option<int>, data: seq<Byte>)

  function After(f: Frame, kind: Option<int>, data: seq<Byte>): Step {
    if f.opcode == CLOSE then Done(Failure(PeerClosed))
    else if f.opcode == PING || f.opcode == PONG then Next(kind, data)
    else if f.opcode == TEXT || f.opcode == BINARY then Continue(f.fin, f.opcode, f.payload)
    else if f.opcode == CONTINUATION && kind.Some? then Continue(f.fin, kind.value, data + f.payload)
    else Done(Failure(Unexpected(f.opcode)))
  }

  function Continue(fin: bool, kind: int, data: seq<Byte>): Step {
    if !fin then if |data| > MAX_MESSAGE then Done(Failure(TooLarge)) else Next(Some(kind), data)
    else if kind != TEXT then Done(Failure(NotText))
    else Done(Message(data))
  }

  /** What reading a message comes to, what is left of the stream then, and the pings met on the way. */
  datatype Reading = Reading(outcome: Outcome, rest: seq<Byte>, pinged: seq<seq<Byte>>)

  function Read(s: seq<Byte>, kind: Option<int>, data: seq<Byte>, pinged: seq<seq<Byte>>): Reading
    decreases |s|
  {
    match Decode(s)
    case Short => Reading(Failure(Closed), s, pinged)
    case TooLong => Reading(Failure(TooLarge), s, pinged)
    case Whole(f, size) =>
      match After(f, kind, data)
      case Done(outcome) => Reading(outcome, s[size..], pinged)
      case Next(k, d) => Read(s[size..], k, d, Noting(pinged, f))
  }

  function Noting(pinged: seq<seq<Byte>>, f: Frame): seq<seq<Byte>> {
    if f.opcode == PING then pinged + [f.payload] else pinged
  }

  /** The sum of the parts is checked only before another part is awaited, so a message can be twice
      as long as one frame may be, and no longer. */
  lemma {:induction false} AtMostTwice(s: seq<Byte>, kind: Option<int>, data: seq<Byte>, pinged: seq<seq<Byte>>)
    requires |data| <= MAX_MESSAGE
    ensures var r := Read(s, kind, data, pinged).outcome; r.Message? ==> |r.text| <= 2 * MAX_MESSAGE
    decreases |s|
  {
    var d := Decode(s);
    if d.Whole? && After(d.frame, kind, data).Next? {
      var next := After(d.frame, kind, data);
      AtMostTwice(s[d.size..], next.kind, next.data, Noting(pinged, d.frame));
    }
  }

  // ---------------------------------------------------------------- a message in fragments

  /** A frame as its sender put it on the wire. */
  datatype Sent = Sent(frame: Frame, form: Form, mask: Option<seq<Byte>>) {
    predicate Legal() {
      0 <= frame.opcode < 16 && Fits(form, |frame.payload|) && (mask.Some? ==> |mask.value| == 4)
    }
  }

  predicate AllLegal(sent: seq<Sent>) {
    sent == [] || (sent[0].Legal() && AllLegal(sent[1..]))
  }

  function Stream(sent: seq<Sent>): seq<Byte>
    requires AllLegal(sent)
  {
    if sent == [] then [] else Encode(sent[0].frame, sent[0].form, sent[0].mask) + Stream(sent[1..])
  }

  predicate Control(f: Frame) {
    f.opcode == PING || f.opcode == PONG
  }

  /** A text message in fragments, as section 5.4 lays it down: a text frame, then continuations, the
      final bit on the last, with pings and pongs anywhere before the end. */
  predicate Fragmented(sent: seq<Sent>, started: bool) {
    && sent != [] && sent[0].Legal()
    && (Control(sent[0].frame) ==> Fragmented(sent[1..], started))
    && (!Control(sent[0].frame) ==>
          && sent[0].frame.opcode == (if started then CONTINUATION else TEXT)
          && (if sent[0].frame.fin then |sent| == 1 else Fragmented(sent[1..], true)))
  }

  function Payload(sent: seq<Sent>): seq<Byte> {
    if sent == [] then []
    else (if Control(sent[0].frame) then [] else sent[0].frame.payload) + Payload(sent[1..])
  }

  function PingsSent(sent: seq<Sent>): seq<seq<Byte>> {
    if sent == [] then []
    else (if sent[0].frame.opcode == PING then [sent[0].frame.payload] else []) + PingsSent(sent[1..])
  }

  /** Every frame is within the limit, and so is what has come before each continuation. */
  predicate Modest(sent: seq<Sent>, sofar: nat) {
    sent == [] ||
      (var f := sent[0].frame;
       var total := if Control(f) then sofar else sofar + |f.payload|;
       |f.payload| <= MAX_MESSAGE && (!Control(f) && !f.fin ==> total <= MAX_MESSAGE) && Modest(sent[1..], total))
  }

  /** One step of reading. */
  lemma OneFrame(s: seq<Byte>, kind: Option<int>, data: seq<Byte>, pinged: seq<seq<Byte>>, f: Frame, size: nat,
                 tail: seq<Byte>)
    requires Decode(s) == Whole(f, size) && s[size..] == tail
    ensures var step := After(f, kind, data);
      Read(s, kind, data, pinged) ==
        if step.Done? then Reading(step.outcome, tail, pinged) else Read(tail, step.kind, step.data, Noting(pinged, f))
  {
  }

  /** What a fragmented message should come to. */
  function Expected(sent: seq<Sent>, before: seq<Byte>): Outcome {
    if Modest(sent, |before|) then Message(before + Payload(sent)) else Failure(TooLarge)
  }

  /** The same for the next frame, taken apart. */
  lemma ExpectedControl(sent: seq<Sent>, before: seq<Byte>)
    requires sent != [] && Control(sent[0].frame) && |sent[0].frame.payload| <= MAX_MESSAGE
    ensures Expected(sent, before) == Expected(sent[1..], before)
  {
    assert [] + Payload(sent[1..]) == Payload(sent[1..]);
  }

  lemma ExpectedLast(sent: seq<Sent>, before: seq<Byte>)
    requires |sent| == 1 && !Control(sent[0].frame) && sent[0].frame.fin && |sent[0].frame.payload| <= MAX_MESSAGE
    ensures Expected(sent, before) == Message(before + sent[0].frame.payload)
  {
    assert sent[1..] == [];
    assert Payload(sent[1..]) == [] && Modest(sent[1..], |before| + |sent[0].frame.payload|);
    assert sent[0].frame.payload + [] == sent[0].frame.payload;
  }

  lemma ExpectedMore(sent: seq<Sent>, before: seq<Byte>)
    requires sent != [] && !Control(sent[0].frame) && !sent[0].frame.fin && |sent[0].frame.payload| <= MAX_MESSAGE
    ensures Expected(sent, before) ==
      if |before + sent[0].frame.payload| <= MAX_MESSAGE then Expected(sent[1..], before + sent[0].frame.payload)
      else Failure(TooLarge)
  {
    var p := sent[0].frame.payload;
    assert before + (p + Payload(sent[1..])) == (before + p) + Payload(sent[1..]);
  }

  /** What a reader sees of the first frame of a stream. */
  lemma FirstOfStream(sent: seq<Sent>, rest: seq<Byte>)
    requires sent != [] && AllLegal(sent)
    ensures var d := Decode(Stream(sent) + rest);
      if |sent[0].frame.payload| > MAX_MESSAGE then d == TooLong
      else d.Whole? && d.frame == sent[0].frame && (Stream(sent) + rest)[d.size..] == Stream(sent[1..]) + rest
  {
    var f, form, mask, more := sent[0].frame, sent[0].form, sent[0].mask, Stream(sent[1..]);
    var w := Encode(f, form, mask);
    assert Stream(sent) == w + more;
    Regroup(w, more, rest);
    if |f.payload| > MAX_MESSAGE {
      RefusesLong(f, form, mask, more + rest);
    } else {
      DecodesBack(f, form, mask, more + rest);
    }
  }

  lemma Regroup(a: seq<Byte>, b: seq<Byte>, c: seq<Byte>)
    ensures (a + b) + c == a + (b + c)
  {
  }

  /** Reading this stream comes to what the frames should come to. */
  predicate Comes(r: Reading, pinged: seq<seq<Byte>>, sent: seq<Sent>, before: seq<Byte>, rest: seq<Byte>) {
    && r.outcome == Expected(sent, before)
    && (r.outcome.Message? ==> r.rest == rest && r.pinged == pinged + PingsSent(sent))
  }

  lemma PingsStep(pinged: seq<seq<Byte>>, sent: seq<Sent>)
    requires sent != []
    ensures pinged + PingsSent(sent) == Noting(pinged, sent[0].frame) + PingsSent(sent[1..])
  {
  }

  /** Any conformant fragmentation is put together again, its pings answered and the stream left
      right behind it, exactly when it is modest; otherwise it is refused as too large. */
  lemma {:induction false} Reassembles(sent: seq<Sent>, started: bool, kind: Option<int>, data: seq<Byte>,
                                       pinged: seq<seq<Byte>>,
                                       rest: seq<Byte>)
    requires Fragmented(sent, started) && AllLegal(sent)
    requires started ==> kind == Some(TEXT)
    ensures Comes(Read(Stream(sent) + rest, kind, data, pinged), pinged, sent, if started then data else [], rest)
  {
    FirstOfStream(sent, rest);
    PingsStep(pinged, sent);
    var f, tail, s := sent[0].frame, Stream(sent[1..]) + rest, Stream(sent) + rest;
    var before := if started then data else [];
    if |f.payload| > MAX_MESSAGE {
      assert Read(s, kind, data, pinged).outcome == Failure(TooLarge);
    } else {
      OneFrame(s, kind, data, pinged, f, Decode(s).size, tail);
      if Control(f) {
        ExpectedControl(sent, before);
        Reassembles(sent[1..], started, kind, data, Noting(pinged, f), rest);
      } else {
        assert [] + f.payload == f.payload;
        if f.fin {
          LastStep(sent, rest);
          ExpectedLast(sent, before);
        } else {
          ExpectedMore(sent, before);
          if |before + f.payload| <= MAX_MESSAGE {
            Reassembles(sent[1..], true, Some(TEXT), before + f.payload, Noting(pinged, f), rest);
          }
        }
      }
    }
  }

  lemma LastStep(sent: seq<Sent>, rest: seq<Byte>)
    requires |sent| == 1 && AllLegal(sent)
    ensures Stream(sent[1..]) + rest == rest
    ensures sent[0].frame.opcode != PING ==> PingsSent(sent) == []
  {
    assert sent[1..] == [];
  }

  /** The bound is reached: two frames of the greatest size make a message of twice that size. */
  lemma TwiceIsReached(rest: seq<Byte>) returns (sent: seq<Sent>)
    ensures AllLegal(sent) && Fragmented(sent, false)
    ensures var r := Read(Stream(sent) + rest, None, [], []).outcome; r.Message? && |r.text| == 2 * MAX_MESSAGE
  {
    var half: seq<Byte> := seq(MAX_MESSAGE, _ => 0);
    var a, b := Sent(Frame(false, TEXT, half), Large, None), Sent(Frame(true, CONTINUATION, half), Large, None);
    sent := [a, b];
    assert sent[1..] == [b] && [b][1..] == [];
    assert AllLegal([b]) && AllLegal(sent);
    assert Fragmented([b], true);
    assert Modest([b], MAX_MESSAGE);
    assert Payload([b]) == half + [];
    assert Payload(sent) == half + Payload([b]);
    Reassembles(sent, false, None, [], [], rest);
  }

  // ---------------------------------------------------------------- the connection

  function Flat(parts: seq<seq<Byte>>): seq<Byte> {
    if parts == [] then [] else Flat(parts[..|parts| - 1]) + parts[|parts| - 1]
  }

  lemma FlatAppend(parts: seq<seq<Byte>>, part: seq<Byte>)
    ensures Flat(parts + [part]) == Flat(parts) + part
  {
    assert (parts + [part])[..|parts|] == parts;
  }

  /** These frames carry these payloads, one each, finished and under this opcode. */
  predicate Carries(frames: seq<seq<Byte>>, opcode: int, payloads: seq<seq<Byte>>) {
    && |frames| == |payloads|
    && forall i :: 0 <= i < |frames| ==> Decode(frames[i]) == Whole(Frame(true, opcode, payloads[i]), |frames[i]|)
  }

  lemma CarriesMore(frames: seq<seq<Byte>>, opcode: int, payloads: seq<seq<Byte>>, frame: seq<Byte>, payload: seq<Byte>)
    requires Carries(frames, opcode, payloads) && Decode(frame) == Whole(Frame(true, opcode, payload), |frame|)
    ensures Carries(frames + [frame], opcode, payloads + [payload])
  {
  }

  lemma Slices(s: seq<Byte>, a: nat, m: nat, n: nat)
    ensures a + m + n <= |s| ==>
      s[a..][m..m + n] == s[a + m..a + m + n] && s[a..][m + n..] == s[a + m + n..] && s[a..][..m] == s[a..a + m]
  {
  }

  class Connection {
    var incoming: seq<Byte>
    var outgoing: seq<Byte>

    constructor (incoming: seq<Byte>)
      ensures this.incoming == incoming && outgoing == []
    {
      this.incoming, outgoing := incoming, [];
    }

    /** Some of the next bytes; none only when the peer has closed. */
    method Recv(size: nat) returns (chunk: seq<Byte>)
      requires size > 0
      modifies `incoming
      ensures chunk + incoming == old(incoming) && |chunk| <= size
      ensures chunk == [] ==> old(incoming) == []
    {
      var most := if size < |incoming| then size else |incoming|;
      var n: nat := *;
      if n <= 0 || n > most { n := most; }
      chunk := incoming[..n];
      incoming := incoming[n..];
    }

    /** Exactly so many bytes, however they arrive. */
    method ReadExact(size: nat) returns (r: Option<seq<Byte>>)
      modifies `incoming
      ensures |old(incoming)| >= size ==> r == Some(old(incoming)[..size]) && incoming == old(incoming)[size..]
      ensures |old(incoming)| < size ==> r.None? && incoming == []
    {
      var chunks: seq<Byte> := [];
      while |chunks| < size
        invariant |chunks| <= size && chunks + incoming == old(incoming)
        decreases size - |chunks|
      {
        var chunk := Recv(size - |chunks|);
        if chunk == [] { return None; }
        chunks := chunks + chunk;
      }
      r := Some(chunks);
    }

    /** One frame: exactly what the decoder finds at the front of the stream. */
    method ReadFrame() returns (r: Result<Frame, Error>)
      modifies `incoming
      ensures var d := Decode(old(incoming));
        && (d.Whole? ==> r == Ok(d.frame) && incoming == old(incoming)[d.size..])
        && (d.Short? ==> r == Err(Closed))
        && (d.TooLong? ==> r == Err(TooLarge))
    {
      ghost var s := incoming;
      var head := ReadExact(2);
      if head.None? { return Err(Closed); }
      var first, second := head.value[0], head.value[1];
      var extended := ReadExact(LengthSize(second));
      if extended.None? { return Err(Closed); }
      Slices(s, 2, 0, LengthSize(second));
      var length := if second % 128 < 126 then second % 128 else Number(extended.value);
      assert length == Declared(s);
      if length > MAX_MESSAGE { return Err(TooLarge); }
      Slices(s, 2 + LengthSize(second), MaskSize(second), length);
      r := ReadPayload(first, second, length);
    }

    method ReadPayload(first: Byte, second: Byte, length: nat) returns (r: Result<Frame, Error>)
      modifies `incoming
      ensures |old(incoming)| < MaskSize(second) + length ==> r == Err(Closed)
      ensures |old(incoming)| >= MaskSize(second) + length ==>
        && incoming == old(incoming)[MaskSize(second) + length..]
        && var data := old(incoming)[MaskSize(second)..MaskSize(second) + length];
           r == Ok(Frame(first >= 128, first % 16, if second >= 128 then Masked(data, old(incoming)[..4]) else data))
    {
      ghost var s := incoming;
      var mask := ReadExact(MaskSize(second));
      if mask.None? { return Err(Closed); }
      var payload := ReadExact(length);
      if payload.None? { return Err(Closed); }
      Slices(s, MaskSize(second), 0, length);
      var data := if second >= 128 then Masked(payload.value, mask.value) else payload.value;
      r := Ok(Frame(first >= 128, first % 16, data));
    }

    /** A finished frame, masked with four random bytes, in the shortest length form. */
    method SendFrame(payload: seq<Byte>, opcode: int) returns (ghost wire: seq<Byte>)
      requires 0 <= opcode < 16 && Fits(Large, |payload|)
      modifies `outgoing
      ensures outgoing == old(outgoing) + wire
      ensures exists form, mask ::
                && Fits(form, |payload|) && |mask| == 4
                && wire == Encode(Frame(true, opcode, payload), form, Some(mask))
      ensures |payload| <= MAX_MESSAGE ==> Decode(wire) == Whole(Frame(true, opcode, payload), |wire|)
    {
      var mask := RandomMask();
      var form := if |payload| < 126 then Small else if |payload| <= 0xFFFF then Medium else Large;
      var bytes := Encode(Frame(true, opcode, payload), form, Some(mask));
      if |payload| <= MAX_MESSAGE {
        DecodesBack(Frame(true, opcode, payload), form, Some(mask), []);
        assert bytes + [] == bytes;
      }
      outgoing := outgoing + bytes;
      wire := bytes;
    }

    method RandomMask() returns (mask: seq<Byte>)
      ensures |mask| == 4
    {
      var a: Byte, b: Byte, c: Byte, d: Byte := *, *, *, *;
      mask := [a, b, c, d];
    }

    /** Every ping is answered with its own payload. */
    method Answer(f: Frame, ghost pinged: seq<seq<Byte>>, ghost pongs: seq<seq<Byte>>, ghost before: seq<Byte>)
      returns (ghost replies: seq<seq<Byte>>)
      requires |f.payload| <= MAX_MESSAGE && Carries(pongs, PONG, pinged) && outgoing == before + Flat(pongs)
      modifies `outgoing
      ensures Carries(replies, PONG, Noting(pinged, f)) && outgoing == before + Flat(replies)
    {
      hide Carries, Flat;
      replies := pongs;
      if f.opcode == PING {
        ghost var wire := SendFrame(f.payload, PONG);
        FlatAppend(pongs, wire);
        replies := pongs + [wire];
        CarriesMore(pongs, PONG, pinged, wire, f.payload);
      }
    }

    /** Read one frame and take it into the message. */
    method TakeFrame(kind: Option<int>, parts: seq<seq<Byte>>, ghost pinged: seq<seq<Byte>>,
                     ghost pongs: seq<seq<Byte>>,
                     ghost before: seq<Byte>)
      returns (k: Option<int>, p: seq<seq<Byte>>, outcome: Option<Outcome>, ghost seen: seq<seq<Byte>>,
               ghost replies: seq<seq<Byte>>)
      requires Carries(pongs, PONG, pinged) && outgoing == before + Flat(pongs)
      modifies this
      ensures Carries(replies, PONG, seen) && outgoing == before + Flat(replies)
      ensures outcome.None? ==> |incoming| < |old(incoming)|
      ensures outcome.None? ==> Read(old(incoming), kind, Flat(parts), pinged) == Read(incoming, k, Flat(p), seen)
      ensures outcome.Some? ==>
        var r := Read(old(incoming), kind, Flat(parts), pinged);
        r.outcome == outcome.value && r.pinged == seen && (r.outcome.Message? ==> r.rest == incoming)
    {
      ghost var front := incoming;
      k, p, outcome, seen, replies := kind, parts, None, pinged, pongs;
      var frame := ReadFrame();
      if frame.Err? {
        outcome := Some(Failure(frame.error));
      } else {
        OneFrame(front, kind, Flat(parts), pinged, frame.value, Decode(front).size, incoming);
        replies := Answer(frame.value, pinged, pongs, before);
        k, p, outcome := Take(frame.value, kind, parts);
        seen := if outcome.None? then Noting(pinged, frame.value) else pinged;
      }
    }

    /** One message: what the stream says it is, with a pong for every ping met on the way. */
    method ReceiveMessage() returns (r: Outcome, ghost pongs: seq<seq<Byte>>)
      modifies this
      ensures r == Read(old(incoming), None, [], []).outcome
      ensures r.Message? ==> incoming == Read(old(incoming), None, [], []).rest
      ensures Carries(pongs, PONG, Read(old(incoming), None, [], []).pinged)
      ensures outgoing == old(outgoing) + Flat(pongs)
    {
      var parts: seq<seq<Byte>>, kind: Option<int>, outcome: Option<Outcome> := [], None, None;
      ghost var pinged: seq<seq<Byte>> := [];
      ghost var all := Read(incoming, None, [], []);
      pongs := [];
      while outcome.None?
        invariant outcome.None? ==> all == Read(incoming, kind, Flat(parts), pinged)
        invariant outcome.Some? ==> all.outcome == outcome.value && all.pinged == pinged
        invariant outcome.Some? && outcome.value.Message? ==> all.rest == incoming
        invariant Carries(pongs, PONG, pinged) && outgoing == old(outgoing) + Flat(pongs)
        decreases outcome.None?, |incoming|
      {
        kind, parts, outcome, pinged, pongs := TakeFrame(kind, parts, pinged, pongs, old(outgoing));
      }
      r := outcome.value;
    }
  }

  /** Another part of the message under assembly, which is kept as the list of its parts. */
  method Extend(fin: bool, kind: int, parts: seq<seq<Byte>>, payload: seq<Byte>)
    returns (p: seq<seq<Byte>>, outcome: Option<Outcome>)
    ensures p == parts + [payload] && Flat(p) == Flat(parts) + payload
    ensures Continue(fin, kind, Flat(p)) == if outcome.Some? then Done(outcome.value) else Next(Some(kind), Flat(p))
  {
    p := parts + [payload];
    FlatAppend(parts, payload);
    var text := Flat(p);
    if !fin {
      outcome := if |text| > MAX_MESSAGE then Some(Failure(TooLarge)) else None;
    } else {
      outcome := Some(if kind == TEXT then Message(text) else Failure(NotText));
    }
  }

  /** What one frame does to it. */
  method Take(f: Frame, kind: Option<int>, parts: seq<seq<Byte>>)
    returns (k: Option<int>, p: seq<seq<Byte>>, outcome: Option<Outcome>)
    ensures After(f, kind, Flat(parts)) == if outcome.Some? then Done(outcome.value) else Next(k, Flat(p))
  {
    k, p, outcome := kind, parts, None;
    if f.opcode == CLOSE {
      outcome := Some(Failure(PeerClosed));
    } else if f.opcode == TEXT || f.opcode == BINARY {
      assert Flat([]) + f.payload == f.payload;
      k := Some(f.opcode);
      p, outcome := Extend(f.fin, f.opcode, [], f.payload);
    } else if f.opcode == CONTINUATION && kind.Some? {
      p, outcome := Extend(f.fin, kind.value, parts, f.payload);
    } else if f.opcode != PING && f.opcode != PONG {
      outcome := Some(Failure(Unexpected(f.opcode)));
    }
  }
}
