/** The wire format: frames, and a parser that resynchronises on the message start bytes. */
module Framing {
  import opened Basics

  const MESSAGE_START: seq<byte> := [0xe4, 0xe8, 0xe9, 0xe5]
  const COMMAND_SIZE := 12
  const HEADER_SIZE := 24
  const MAX_SIZE := 0x0200_0000
  const UINT32 := 0x1_0000_0000

  type Bytes = seq<byte>

  /** The first four bytes of the hash, as a number. */
  type Checksum = Bytes -> nat

  datatype Message = Message(command: Bytes, payload: Bytes)

  // ---------- numbers and commands ----------

  function LittleEndian(n: nat): (b: Bytes)
    ensures |b| == 4
  {
    [n % 256, n / 256 % 256, n / 65536 % 256, n / 16777216 % 256]
  }

  function FromLittleEndian(b: Bytes): (n: nat)
    requires |b| == 4
    ensures n < UINT32
  {
    (b[0] as int) + 256 * (b[1] as int) + 65536 * (b[2] as int) + 16777216 * (b[3] as int)
  }

  lemma LittleEndianRoundTrip(n: nat)
    ensures FromLittleEndian(LittleEndian(n)) == n % UINT32
  {
    var a, b, c := n / 256, n / 65536, n / 16777216;
    NextByte(n, 256);
    NextByte(n, 65536);
    NextByte(n, 16777216);
    assert n == 256 * a + n % 256;
    assert n == UINT32 * (c / 256) + FromLittleEndian(LittleEndian(n));
  }

  lemma NextByte(n: nat, d: nat)
    requires d == 256 || d == 65536 || d == 16777216
    ensures n / d == 256 * (n / (256 * d)) + n / d % 256
  {
  }

  function Zeros(n: nat): (z: Bytes)
    ensures |z| == n
  {
    seq(n, _ => 0)
  }

  /** The command field: at most twelve characters, padded with zeros. */
  function Padded(command: Bytes): (b: Bytes)
    ensures |b| == COMMAND_SIZE
  {
    if |command| >= COMMAND_SIZE then command[..COMMAND_SIZE] else command + Zeros(COMMAND_SIZE - |command|)
  }

  /** The characters before the first zero. */
  function Unpadded(field: Bytes): Bytes {
    if field == [] || field[0] == 0 then [] else [field[0]] + Unpadded(field[1..])
  }

  predicate Printable(b: byte) { 0x20 <= b <= 0x7e }

  predicate ValidCommandField(field: Bytes) {
    if field == [] then true
    else if field[0] == 0 then forall i :: 0 <= i < |field| ==> field[i] == 0
    else Printable(field[0]) && ValidCommandField(field[1..])
  }

  predicate ValidCommand(command: Bytes) { forall i :: 0 <= i < |command| ==> Printable(command[i]) }

  lemma {:induction false} CommandRoundTrip(command: Bytes, n: nat)
    requires ValidCommand(command)
    ensures ValidCommandField(command + Zeros(n)) && Unpadded(command + Zeros(n)) == command
  {
    var field := command + Zeros(n);
    if command != [] {
      assert field[1..] == command[1..] + Zeros(n);
      CommandRoundTrip(command[1..], n);
    }
  }

  // ---------- the printer ----------

  function Header(command: Bytes, size: nat, check: nat): (h: Bytes)
    ensures |h| == HEADER_SIZE
  {
    MESSAGE_START + Padded(command) + LittleEndian(size) + LittleEndian(check)
  }

  function Frame(ck: Checksum, m: Message): Bytes {
    Header(m.command, |m.payload|, ck(m.payload)) + m.payload
  }

  function Frames(ck: Checksum, ms: seq<Message>): Bytes {
    if ms == [] then [] else Frame(ck, ms[0]) + Frames(ck, ms[1..])
  }

  // ---------- the parser ----------

  predicate StartsAt(b: Bytes, i: nat) { i + 4 <= |b| && b[i..i + 4] == MESSAGE_START }

  /** The first occurrence of the message start, or the end. */
  function Search(b: Bytes): (p: nat)
    ensures p <= |b|
  {
    if b == [] || StartsAt(b, 0) then 0 else Search(b[1..]) + 1
  }

  lemma {:induction false} SearchFinds(b: Bytes)
    ensures Search(b) < |b| ==> StartsAt(b, Search(b))
    ensures forall i :: 0 <= i < Search(b) ==> !StartsAt(b, i)
  {
    if b != [] && !StartsAt(b, 0) {
      SearchFinds(b[1..]);
      StartsAtSuffix(b, 1, Search(b[1..]));
      forall i | 0 <= i < Search(b) ensures !StartsAt(b, i) {
        if i > 0 { StartsAtSuffix(b, 1, i - 1); }
      }
    }
  }

  predicate ValidHeader(h: Bytes)
    requires |h| >= HEADER_SIZE
  {
    h[..4] == MESSAGE_START && ValidCommandField(h[4..16]) && FromLittleEndian(h[16..20]) <= MAX_SIZE
  }

  datatype Step = Stop(rest: Bytes) | Skip(rest: Bytes) | Deliver(message: Message, rest: Bytes)

  function LastBytes(b: Bytes, n: nat): Bytes { if |b| > n then b[|b| - n..] else b }

  /** One iteration on a buffer that starts with a header. */
  function HeaderStep(ck: Checksum, b: Bytes): Step
    requires |b| >= HEADER_SIZE
  {
    var size, body := FromLittleEndian(b[16..20]), b[HEADER_SIZE..];
    if !ValidHeader(b) then Skip(body)
    else if size > |body| then Stop(b)
    else if ck(body[..size]) % UINT32 != FromLittleEndian(b[20..24]) then Skip(body)
    else Deliver(Message(Unpadded(b[4..16]), body[..size]), body[size..])
  }

  /** One iteration of the receive loop. */
  function ParseStep(ck: Checksum, b: Bytes): (s: Step)
    ensures !s.Stop? ==> |s.rest| + HEADER_SIZE <= |b|
  {
    var p := Search(b);
    if |b| - p < HEADER_SIZE then Stop(LastBytes(b, HEADER_SIZE)) else HeaderStep(ck, b[p..])
  }

  /** The messages delivered, and what stays in the buffer. */
  datatype Parsed = Parsed(messages: seq<Message>, rest: Bytes) {
    function After(earlier: seq<Message>): Parsed { Parsed(earlier + messages, rest) }
  }

  function Parse(ck: Checksum, b: Bytes): Parsed
    decreases |b|
  {
    match ParseStep(ck, b)
    case Stop(rest) => Parsed([], rest)
    case Skip(rest) => Parse(ck, rest)
    case Deliver(m, rest) => Parse(ck, rest).After([m])
  }

  /** The same, giving up after n iterations because the send buffer is full. */
  function ParseSome(ck: Checksum, b: Bytes, n: nat): Parsed {
    if n == 0 then Parsed([], b) else
      match ParseStep(ck, b)
      case Stop(rest) => Parsed([], rest)
      case Skip(rest) => ParseSome(ck, rest, n - 1)
      case Deliver(m, rest) => ParseSome(ck, rest, n - 1).After([m])
  }

  lemma AfterAfter(p: Parsed, a: seq<Message>, b: seq<Message>)
    ensures p.After(b).After(a) == p.After(a + b) && p.After([]) == p
  {
    assert a + (b + p.messages) == (a + b) + p.messages;
  }

  // ---------- how a step sees more bytes ----------

  lemma SearchUnique(b: Bytes, p: nat)
    requires StartsAt(b, p) && forall i :: 0 <= i < p ==> !StartsAt(b, i)
    ensures Search(b) == p
  {
    SearchFinds(b);
  }

  lemma StartsAtPrefix(a: Bytes, b: Bytes, i: nat)
    requires i + 4 <= |a|
    ensures StartsAt(a + b, i) <==> StartsAt(a, i)
  {
    assert (a + b)[i..i + 4] == a[i..i + 4];
  }

  lemma StartsAtSuffix(b: Bytes, d: nat, i: nat)
    requires d <= |b|
    ensures StartsAt(b[d..], i) <==> StartsAt(b, d + i)
  {
    if d + i + 4 <= |b| { assert b[d..][i..i + 4] == b[d + i..d + i + 4]; }
  }

  /** Dropping bytes before the first start only shifts it. */
  lemma {:induction false} SearchDrop(b: Bytes, d: nat)
    requires d <= |b| && forall i :: 0 <= i < d ==> !StartsAt(b, i)
    ensures Search(b) == d + Search(b[d..])
  {
    if d == 0 {
      assert b[0..] == b;
    } else {
      assert !StartsAt(b, 0);
      forall i | 0 <= i < d - 1 ensures !StartsAt(b[1..], i) { StartsAtSuffix(b, 1, i); }
      SearchDrop(b[1..], d - 1);
      assert b[1..][d - 1..] == b[d..];
    }
  }

  lemma HeaderStepExtends(ck: Checksum, a: Bytes, b: Bytes)
    requires |a| >= HEADER_SIZE && !HeaderStep(ck, a).Stop?
    ensures HeaderStep(ck, a + b) == HeaderStep(ck, a).(rest := HeaderStep(ck, a).rest + b)
  {
    var size := FromLittleEndian(a[16..20]);
    assert (a + b)[..4] == a[..4] && (a + b)[4..16] == a[4..16];
    assert (a + b)[16..20] == a[16..20] && (a + b)[20..24] == a[20..24];
    assert (a + b)[HEADER_SIZE..] == a[HEADER_SIZE..] + b;
    if ValidHeader(a) {
      assert (a[HEADER_SIZE..] + b)[..size] == a[HEADER_SIZE..][..size];
      assert (a[HEADER_SIZE..] + b)[size..] == a[HEADER_SIZE..][size..] + b;
    }
  }

  /** A step that consumed something would have done the same with more bytes behind. */
  lemma MovingStepExtends(ck: Checksum, a: Bytes, b: Bytes)
    requires !ParseStep(ck, a).Stop?
    ensures ParseStep(ck, a + b) == ParseStep(ck, a).(rest := ParseStep(ck, a).rest + b)
  {
    var p := Search(a);
    SearchFinds(a);
    forall i | 0 <= i <= p ensures StartsAt(a + b, i) <==> StartsAt(a, i) { StartsAtPrefix(a, b, i); }
    SearchUnique(a + b, p);
    assert (a + b)[p..] == a[p..] + b;
    HeaderStepExtends(ck, a[p..], b);
  }

  /** A prefix of a that no message start begins in, and that a + b can do without. */
  ghost predicate Erasable(a: Bytes, d: nat) {
    d <= |a| && (forall i :: 0 <= i < d ==> !StartsAt(a, i)) && (d == 0 || d + HEADER_SIZE <= |a|)
  }

  lemma ErasedSearch(a: Bytes, b: Bytes, d: nat)
    requires Erasable(a, d)
    ensures Search(a + b) == d + Search(a[d..] + b)
  {
    forall i | 0 <= i < d ensures !StartsAt(a + b, i) { StartsAtPrefix(a, b, i); }
    SearchDrop(a + b, d);
    assert (a + b)[d..] == a[d..] + b;
  }

  lemma ErasedStep(ck: Checksum, a: Bytes, b: Bytes, d: nat)
    requires Erasable(a, d)
    ensures ParseStep(ck, a + b) == ParseStep(ck, a[d..] + b)
  {
    ErasedSearch(a, b, d);
    var q := Search(a[d..] + b);
    assert (a + b)[d..] == a[d..] + b;
    assert (a + b)[d + q..] == (a[d..] + b)[q..];
    if |a + b| - (d + q) < HEADER_SIZE { LastBytesDrop(a + b, d); }
  }

  /** Erasing what a stopped step erases makes no difference to what follows. */
  lemma StoppedStepExtends(ck: Checksum, a: Bytes, b: Bytes)
    requires ParseStep(ck, a).Stop?
    ensures ParseStep(ck, a + b) == ParseStep(ck, ParseStep(ck, a).rest + b)
  {
    var d := StoppedAt(ck, a);
    ErasedStep(ck, a, b, d);
  }

  lemma StoppedAt(ck: Checksum, a: Bytes) returns (d: nat)
    requires ParseStep(ck, a).Stop?
    ensures Erasable(a, d) && ParseStep(ck, a).rest == a[d..]
  {
    var p := Search(a);
    SearchFinds(a);
    d := if |a| - p >= HEADER_SIZE then p else if |a| > HEADER_SIZE then |a| - HEADER_SIZE else 0;
    assert a[0..] == a;
  }

  lemma LastBytesDrop(b: Bytes, d: nat)
    requires d == 0 || d + HEADER_SIZE <= |b|
    ensures d <= |b| && LastBytes(b[d..], HEADER_SIZE) == LastBytes(b, HEADER_SIZE)
  {
  }

  // ---------- the dispatched sequence does not depend on chunks ----------

  /** Parsing a prefix, and what it leaves together with the rest, is parsing all. */
  lemma {:induction false} ParseInChunks(ck: Checksum, a: Bytes, b: Bytes)
    ensures Parse(ck, a + b) == Parse(ck, Parse(ck, a).rest + b).After(Parse(ck, a).messages)
    decreases |a|
  {
    var step := ParseStep(ck, a);
    if step.Stop? {
      StoppedStepExtends(ck, a, b);
      SameStepSameParse(ck, a + b, step.rest + b);
      AfterAfter(Parse(ck, step.rest + b), [], []);
    } else {
      MovingStepExtends(ck, a, b);
      ParseInChunks(ck, step.rest, b);
      if step.Deliver? {
        var first := Parse(ck, step.rest);
        AfterAfter(Parse(ck, first.rest + b), [step.message], first.messages);
      }
    }
  }

  lemma SameStepSameParse(ck: Checksum, a: Bytes, b: Bytes)
    requires ParseStep(ck, a) == ParseStep(ck, b)
    ensures Parse(ck, a) == Parse(ck, b)
  {
  }

  /** Parsing again what parsing left delivers nothing. */
  lemma ParseLeavesNothing(ck: Checksum, a: Bytes)
    ensures Parse(ck, Parse(ck, a).rest) == Parsed([], Parse(ck, a).rest)
  {
    ParseInChunks(ck, a, []);
    var left := Parse(ck, a).rest;
    assert a + [] == a && left + [] == left;
    assert |Parse(ck, a).messages| == |Parse(ck, a).messages| + |Parse(ck, left).messages|;
  }

  /** Stopping early loses nothing. */
  lemma {:induction false} ParseResumes(ck: Checksum, b: Bytes, n: nat)
    ensures Parse(ck, b) == Parse(ck, ParseSome(ck, b, n).rest).After(ParseSome(ck, b, n).messages)
    decreases n
  {
    var step := ParseStep(ck, b);
    if n == 0 {
      AfterAfter(Parse(ck, b), [], []);
    } else if step.Stop? {
      StoppedStepExtends(ck, b, []);
      assert b + [] == b && step.rest + [] == step.rest;
      SameStepSameParse(ck, b, step.rest);
      AfterAfter(Parse(ck, b), [], []);
    } else {
      ParseResumes(ck, step.rest, n - 1);
      if step.Deliver? {
        var first := ParseSome(ck, step.rest, n - 1);
        AfterAfter(Parse(ck, first.rest), [step.message], first.messages);
      }
    }
  }

  /** Every iteration that goes on consumes a header, so more iterations than headers fit in the buffer parse it all. */
  lemma {:induction false} ParseSomeIsAll(ck: Checksum, b: Bytes, n: nat)
    requires n * HEADER_SIZE > |b|
    ensures ParseSome(ck, b, n) == Parse(ck, b)
    decreases n
  {
    match ParseStep(ck, b)
    case Stop(rest) =>
    case Skip(rest) => ParseSomeIsAll(ck, rest, n - 1);
    case Deliver(m, rest) => ParseSomeIsAll(ck, rest, n - 1);
  }

  /** What happens to a connection: bytes arrive, or the loop runs for up to n iterations. */
  datatype Event = Arrive(bytes: Bytes) | Process(n: nat)

  function Stream(events: seq<Event>): Bytes {
    if events == [] then []
    else Stream(Front(events)) + if Last(events).Arrive? then Last(events).bytes else []
  }

  function React(ck: Checksum, p: Parsed, e: Event): Parsed {
    match e
    case Arrive(bytes) => Parsed(p.messages, p.rest + bytes)
    case Process(n) => ParseSome(ck, p.rest, n).After(p.messages)
  }

  /** The messages dispatched and the buffer after some events. */
  function Run(ck: Checksum, events: seq<Event>): Parsed {
    if events == [] then Parsed([], []) else React(ck, Run(ck, Front(events)), Last(events))
  }

  /** The messages dispatched so far, followed by those the buffer still holds. */
  function Completed(ck: Checksum, p: Parsed): Parsed { Parse(ck, p.rest).After(p.messages) }

  /** Processing changes nothing about what will have been dispatched in the end; arriving bytes just extend it. */
  lemma ReactKeeps(ck: Checksum, p: Parsed, e: Event, stream: Bytes)
    requires Completed(ck, p) == Parse(ck, stream)
    ensures Completed(ck, React(ck, p, e)) == Parse(ck, stream + if e.Arrive? then e.bytes else [])
  {
    match e {
      case Arrive(bytes) =>
        var now := Parse(ck, p.rest);
        ParseInChunks(ck, stream, bytes);
        ParseInChunks(ck, p.rest, bytes);
        AfterAfter(Parse(ck, now.rest + bytes), p.messages, now.messages);
      case Process(n) =>
        var some := ParseSome(ck, p.rest, n);
        ParseResumes(ck, p.rest, n);
        AfterAfter(Parse(ck, some.rest), p.messages, some.messages);
        assert stream + [] == stream;
    }
  }

  /** However the stream is cut up and the loop interrupted, the messages dispatched so far, and the ones
      the buffer still holds, are those of the whole stream. */
  lemma {:induction false} AnySchedule(ck: Checksum, events: seq<Event>)
    ensures Completed(ck, Run(ck, events)) == Parse(ck, Stream(events))
  {
    if events == [] {
      AfterAfter(Parse(ck, []), [], []);
    } else {
      AnySchedule(ck, Front(events));
      ReactKeeps(ck, Run(ck, Front(events)), Last(events), Stream(Front(events)));
    }
  }

  /** Once the loop has run for more iterations than headers fit in the buffer, the messages of the whole stream have
      been dispatched. */
  lemma AllDispatched(ck: Checksum, events: seq<Event>, n: nat)
    requires n * HEADER_SIZE > |Run(ck, events).rest|
    ensures Run(ck, events + [Process(n)]) == Parse(ck, Stream(events))
  {
    var all := events + [Process(n)];
    assert Front(all) == events && Last(all) == Process(n);
    ParseSomeIsAll(ck, Run(ck, events).rest, n);
    AnySchedule(ck, events);
  }

  // ---------- frames are parsed back ----------

  predicate Sendable(m: Message) {
    ValidCommand(m.command) && |m.payload| <= MAX_SIZE
  }

  /** A command of more than twelve characters arrives cut off. */
  function Received(m: Message): Message {
    m.(command := if |m.command| > COMMAND_SIZE then m.command[..COMMAND_SIZE] else m.command)
  }

  function AllReceived(ms: seq<Message>): seq<Message> {
    if ms == [] then [] else [Received(ms[0])] + AllReceived(ms[1..])
  }

  lemma PaddedRoundTrip(command: Bytes)
    requires ValidCommand(command)
    ensures ValidCommandField(Padded(command))
    ensures Unpadded(Padded(command)) == if |command| > COMMAND_SIZE then command[..COMMAND_SIZE] else command
  {
    if |command| >= COMMAND_SIZE {
      CommandRoundTrip(command[..COMMAND_SIZE], 0);
      assert command[..COMMAND_SIZE] + Zeros(0) == command[..COMMAND_SIZE];
    } else {
      CommandRoundTrip(command, COMMAND_SIZE - |command|);
    }
  }

  lemma HeaderFields(command: Bytes, size: nat, check: nat, payload: Bytes)
    ensures var b := Header(command, size, check) + payload;
      && b[..4] == MESSAGE_START && b[4..16] == Padded(command) && b[16..20] == LittleEndian(size)
      && b[20..24] == LittleEndian(check) && b[HEADER_SIZE..] == payload
  {
  }

  lemma FrameHeaderStep(ck: Checksum, m: Message, rest: Bytes)
    requires Sendable(m)
    ensures HeaderStep(ck, Header(m.command, |m.payload|, ck(m.payload)) + (m.payload + rest))
            == Deliver(Received(m), rest)
  {
    var size, check := |m.payload|, ck(m.payload);
    HeaderFields(m.command, size, check, m.payload + rest);
    LittleEndianRoundTrip(size);
    LittleEndianRoundTrip(check);
    DeliveredBy(ck, Header(m.command, size, check) + (m.payload + rest), m, rest);
  }

  /** A valid header that announces a payload with its checksum delivers it. */
  lemma DeliveredBy(ck: Checksum, b: Bytes, m: Message, rest: Bytes)
    requires Sendable(m) && |b| >= HEADER_SIZE && b[..4] == MESSAGE_START && b[4..16] == Padded(m.command)
    requires FromLittleEndian(b[16..20]) == |m.payload| && FromLittleEndian(b[20..24]) == ck(m.payload) % UINT32
    requires b[HEADER_SIZE..] == m.payload + rest
    ensures HeaderStep(ck, b) == Deliver(Received(m), rest)
  {
    PaddedRoundTrip(m.command);
    var payload := m.payload;
    assert (payload + rest)[..|payload|] == payload && (payload + rest)[|payload|..] == rest;
  }

  lemma FrameStep(ck: Checksum, m: Message, rest: Bytes)
    requires Sendable(m)
    ensures ParseStep(ck, Frame(ck, m) + rest) == Deliver(Received(m), rest)
  {
    var b := Header(m.command, |m.payload|, ck(m.payload)) + (m.payload + rest);
    assert Frame(ck, m) + rest == b;
    HeaderFields(m.command, |m.payload|, ck(m.payload), m.payload + rest);
    assert b[0..4] == b[..4] && b[0..] == b;
    SearchUnique(b, 0);
    FrameHeaderStep(ck, m, rest);
  }

  /** Frames are dispatched as exactly the messages they were made of, in order. */
  lemma {:induction false} FramesRoundTrip(ck: Checksum, ms: seq<Message>)
    requires forall i :: 0 <= i < |ms| ==> Sendable(ms[i])
    ensures Parse(ck, Frames(ck, ms)) == Parsed(AllReceived(ms), [])
  {
    if ms != [] {
      FrameStep(ck, ms[0], Frames(ck, ms[1..]));
      FramesRoundTrip(ck, ms[1..]);
    }
  }

  /** Garbage in front that contains no message start, not even together with what follows, is skipped. */
  lemma Resynchronises(ck: Checksum, garbage: Bytes, ms: seq<Message>)
    requires ms != [] && forall i :: 0 <= i < |ms| ==> Sendable(ms[i])
    requires forall i :: 0 <= i < |garbage| ==> !StartsAt(garbage + Frames(ck, ms), i)
    ensures Parse(ck, garbage + Frames(ck, ms)) == Parsed(AllReceived(ms), [])
  {
    var b, frames := garbage + Frames(ck, ms), Frames(ck, ms);
    SearchDrop(b, |garbage|);
    assert b[|garbage|..] == frames;
    FrameStep(ck, ms[0], Frames(ck, ms[1..]));
    assert b[|garbage| + Search(frames)..] == frames[Search(frames)..];
    FramesRoundTrip(ck, ms);
  }

  /** Whatever was sent, however it was cut up, is received once and in order: what was dispatched and what the buffer
      still holds together, and what was dispatched alone as soon as the loop has run for long enough. */
  lemma SentIsReceived(ck: Checksum, ms: seq<Message>, events: seq<Event>)
    requires forall i :: 0 <= i < |ms| ==> Sendable(ms[i])
    requires Stream(events) == Frames(ck, ms)
    ensures Completed(ck, Run(ck, events)) == Parsed(AllReceived(ms), [])
    ensures forall n: nat :: n * HEADER_SIZE > |Run(ck, events).rest| ==>
                          Run(ck, events + [Process(n)]) == Parsed(AllReceived(ms), [])
  {
    AnySchedule(ck, events);
    FramesRoundTrip(ck, ms);
    forall n: nat | n * HEADER_SIZE > |Run(ck, events).rest|
      ensures Run(ck, events + [Process(n)]) == Parsed(AllReceived(ms), [])
    {
      AllDispatched(ck, events, n);
    }
  }
}
