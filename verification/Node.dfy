/** The two ends of a connection: the send buffer that messages are built in, and the receive buffer they are
    dispatched from. */
module Node {
  import opened Basics
  import opened Framing

  class SendBuffer {
    const ck: Checksum
    var vSend: Bytes
    var nHeaderStart: int
    var nMessageStart: int
    ghost var command: Bytes

    /** Nothing is being built, or a header without size and checksum is followed by the payload so far. */
    ghost predicate Valid()
      reads this
    {
      if nHeaderStart == -1 then nMessageStart == -1
      else
        && 0 <= nHeaderStart && nMessageStart == nHeaderStart + HEADER_SIZE && nMessageStart <= |vSend|
        && vSend[nHeaderStart..nMessageStart] == Header(command, 0, 0)
    }

    /** The finished messages. */
    ghost function Done(): Bytes
      requires Valid()
      reads this
    {
      if nHeaderStart == -1 then vSend else vSend[..nHeaderStart]
    }

    /** The message being built. */
    ghost function Current(): Option<Message>
      requires Valid()
      reads this
    {
      if nHeaderStart == -1 then None else Some(Message(command, vSend[nMessageStart..]))
    }

    constructor (ck: Checksum)
      ensures Valid() && Done() == [] && Current() == None && this.ck == ck
    {
      this.ck, vSend, nHeaderStart, nMessageStart, command := ck, [], -1, -1, [];
    }

    /** Starts a message; one that was being built is dropped. */
    method BeginMessage(pszCommand: Bytes)
      requires Valid()
      modifies this
      ensures Valid() && Done() == old(Done()) && Current() == Some(Message(pszCommand, []))
    {
      if nHeaderStart != -1 { AbortMessage(); }
      nHeaderStart := |vSend|;
      vSend := vSend + Header(pszCommand, 0, 0);
      nMessageStart := |vSend|;
      command := pszCommand;
      assert vSend[nMessageStart..] == [] && vSend[nHeaderStart..nMessageStart] == Header(command, 0, 0);
    }

    method AbortMessage()
      requires Valid()
      modifies this
      ensures Valid() && Done() == old(Done()) && Current() == None
    {
      if nHeaderStart < 0 { return; }
      vSend := vSend[..nHeaderStart];
      nHeaderStart := -1;
      nMessageStart := -1;
    }

    /** Appends to the payload. */
    method Write(bytes: Bytes)
      requires Valid() && nHeaderStart != -1
      modifies this`vSend
      ensures Valid() && Done() == old(Done())
      ensures Current() == Some(Message(command, old(Current()).value.payload + bytes))
    {
      ghost var before := vSend;
      vSend := vSend + bytes;
      assert vSend[nHeaderStart..nMessageStart] == before[nHeaderStart..nMessageStart];
      assert vSend[nMessageStart..] == before[nMessageStart..] + bytes;
      assert vSend[..nHeaderStart] == before[..nHeaderStart];
    }

    /** Overwrites four bytes. */
    method Patch(at: nat, bytes: Bytes)
      requires |bytes| == 4 && at + 4 <= |vSend|
      modifies this`vSend
      ensures vSend == old(vSend)[..at] + bytes + old(vSend)[at + 4..]
    {
      vSend := vSend[..at] + bytes + vSend[at + 4..];
    }

    /** Completes the message by writing its size and checksum into the header: what was being built becomes a
        frame.  fDrop is the debugging option that drops messages. */
    method EndMessage(fDrop: bool)
      requires Valid()
      modifies this
      ensures Valid() && Current() == None
      ensures Done()
              == if fDrop || old(Current()).None? then old(Done()) else old(Done()) + Frame(ck, old(Current()).value)
    {
      if fDrop {
        AbortMessage();
        return;
      }
      if nHeaderStart < 0 { return; }
      ghost var done, payload := vSend[..nHeaderStart], vSend[nMessageStart..];
      assert vSend == done + Header(command, 0, 0) + payload by {
        assert vSend == vSend[..nHeaderStart] + vSend[nHeaderStart..nMessageStart] + vSend[nMessageStart..];
      }
      var nSize := |vSend| - nMessageStart;
      SizePatched(done, command, payload, nSize);
      Patch(nHeaderStart + 16, LittleEndian(nSize));
      assert vSend[nMessageStart..] == payload;
      var nChecksum := ck(vSend[nMessageStart..]);
      ChecksumPatched(done, command, payload, nSize, nChecksum);
      Patch(nHeaderStart + 20, LittleEndian(nChecksum));
      nHeaderStart := -1;
      nMessageStart := -1;
    }

    method EndMessageAbortIfEmpty(fDrop: bool)
      requires Valid()
      modifies this
      ensures Valid() && Current() == None
      ensures Done() ==
                if fDrop || old(Current()).None? || old(Current()).value.payload == [] then old(Done())
                else old(Done()) + Frame(ck, old(Current()).value)
    {
      if nHeaderStart < 0 { return; }
      var nSize := |vSend| - nMessageStart;
      if nSize > 0 { EndMessage(fDrop); } else { AbortMessage(); }
    }

    method PushMessage(pszCommand: Bytes, payload: Bytes)
      requires Valid()
      modifies this
      ensures Valid() && Current() == None && Done() == old(Done()) + Frame(ck, Message(pszCommand, payload))
    {
      BeginMessage(pszCommand);
      Write(payload);
      assert [] + payload == payload;
      EndMessage(false);
    }
  }

  lemma SizePatched(done: Bytes, command: Bytes, payload: Bytes, size: nat)
    ensures var v := done + Header(command, 0, 0) + payload;
      v[..|done| + 16] + LittleEndian(size) + v[|done| + 20..] == done + Header(command, size, 0) + payload
  {
    var start, zero := MESSAGE_START + Padded(command), LittleEndian(0);
    var v := done + Header(command, 0, 0) + payload;
    assert v == (done + start) + zero + (zero + payload);
    assert done + Header(command, size, 0) + payload == (done + start) + LittleEndian(size) + (zero + payload);
  }

  lemma ChecksumPatched(done: Bytes, command: Bytes, payload: Bytes, size: nat, check: nat)
    ensures var v := done + Header(command, size, 0) + payload;
      v[..|done| + 20] + LittleEndian(check) + v[|done| + 24..] == done + (Header(command, size, check) + payload)
  {
    var start, zero := MESSAGE_START + Padded(command) + LittleEndian(size), LittleEndian(0);
    var v := done + Header(command, size, 0) + payload;
    assert v == (done + start) + zero + payload;
    assert done + (Header(command, size, check) + payload) == (done + start) + LittleEndian(check) + payload;
  }

  lemma {:induction false} FramesAppend(ck: Checksum, ms: seq<Message>, m: Message)
    ensures Frames(ck, ms + [m]) == Frames(ck, ms) + Frame(ck, m)
  {
    if ms == [] {
      assert Frames(ck, [m]) == Frame(ck, m) + Frames(ck, []);
    } else {
      assert (ms + [m])[0] == ms[0] && (ms + [m])[1..] == ms[1..] + [m];
      FramesAppend(ck, ms[1..], m);
      assert Frame(ck, ms[0]) + (Frames(ck, ms[1..]) + Frame(ck, m))
             == (Frame(ck, ms[0]) + Frames(ck, ms[1..])) + Frame(ck, m);
    }
  }

  /** Sends some messages through an empty buffer: what is in it is their frames. */
  method SendAll(ck: Checksum, messages: seq<Message>) returns (bytes: Bytes)
    ensures bytes == Frames(ck, messages)
  {
    var node := new SendBuffer(ck);
    for i := 0 to |messages|
      invariant fresh(node) && node.Valid() && node.Current() == None && node.ck == ck
      invariant node.Done() == Frames(ck, messages[..i])
    {
      node.PushMessage(messages[i].command, messages[i].payload);
      FramesAppend(ck, messages[..i], messages[i]);
      assert messages[..i + 1] == messages[..i] + [messages[i]];
    }
    assert messages[..|messages|] == messages;
    bytes := node.vSend;
  }

  class ReceiveBuffer {
    const ck: Checksum
    var vRecv: Bytes

    constructor (ck: Checksum)
      ensures vRecv == [] && this.ck == ck
    {
      this.ck, vRecv := ck, [];
    }

    method Receive(bytes: Bytes)
      modifies this
      ensures vRecv == old(vRecv) + bytes
    {
      vRecv := vRecv + bytes;
    }

    /** The loop that validates the command field: all zeros after the first zero, printable before. */
    method CommandIsValid(field: Bytes) returns (r: bool)
      ensures r <==> ValidCommandField(field)
    {
      var p := 0;
      assert field[0..] == field;
      while p < |field|
        invariant 0 <= p <= |field| && (ValidCommandField(field) <==> ValidCommandField(field[p..]))
      {
        if field[p] == 0 {
          ghost var tail := field[p..];
          var q := p;
          while q < |field|
            invariant p <= q <= |field| && forall i :: 0 <= i < q - p ==> tail[i] == 0
          {
            if field[q] != 0 {
              assert tail[q - p] != 0;
              return false;
            }
            q := q + 1;
          }
          return true;
        } else if !Printable(field[p]) {
          return false;
        }
        assert field[p..][1..] == field[p + 1..];
        p := p + 1;
      }
      r := true;
    }

    /** The part of an iteration after the message start was found: takes the header, and the message if
        it is complete and its checksum matches. */
    method ReadMessage() returns (fWait: bool, message: Option<Message>)
      requires |vRecv| >= HEADER_SIZE
      modifies this
      ensures HeaderStep(ck, old(vRecv)) == Outcome(fWait, message, vRecv)
    {
      var vHeaderSave := vRecv[..HEADER_SIZE];
      vRecv := vRecv[HEADER_SIZE..];
      HeaderOfBuffer(vHeaderSave, vRecv);
      assert old(vRecv) == vHeaderSave + vRecv;
      var fCommand := CommandIsValid(vHeaderSave[4..16]);
      var nMessageSize := FromLittleEndian(vHeaderSave[16..20]);
      if vHeaderSave[..4] != MESSAGE_START || !fCommand || nMessageSize > MAX_SIZE { return false, None; }
      if nMessageSize > |vRecv| {
        vRecv := vHeaderSave + vRecv;
        return true, None;
      }
      var nChecksum := ck(vRecv[..nMessageSize]) % UINT32;
      if nChecksum != FromLittleEndian(vHeaderSave[20..24]) { return false, None; }
      var vMsg := vRecv[..nMessageSize];
      vRecv := vRecv[nMessageSize..];
      return false, Some(Message(Unpadded(vHeaderSave[4..16]), vMsg));
    }

    /** One iteration: finds the message start; without room for a header behind it, keeps the last bytes. */
    method ProcessOne() returns (fWait: bool, message: Option<Message>)
      modifies this
      ensures ParseStep(ck, old(vRecv)) == Outcome(fWait, message, vRecv)
    {
      var pstart := Search(vRecv);
      if |vRecv| - pstart < HEADER_SIZE {
        if |vRecv| > HEADER_SIZE { vRecv := vRecv[|vRecv| - HEADER_SIZE..]; }
        return true, None;
      }
      vRecv := vRecv[pstart..];
      fWait, message := ReadMessage();
    }

    /** One iteration, behind the messages dispatched before. */
    method ProcessNext(ghost n: nat, earlier: seq<Message>) returns (fWait: bool, dispatched: seq<Message>)
      requires n > 0
      modifies this
      ensures ParseSome(ck, old(vRecv), n).After(earlier) ==
              if fWait then Parsed(dispatched, vRecv) else ParseSome(ck, vRecv, n - 1).After(dispatched)
    {
      ParseNext(ck, vRecv, n, earlier);
      var message;
      fWait, message := ProcessOne();
      dispatched := if message.Some? && !fWait then earlier + [message.value] else earlier;
    }

    /** Dispatches what can be dispatched; the send buffer is found full after nRoom iterations. */
    method ProcessMessages(nRoom: nat) returns (dispatched: seq<Message>)
      modifies this
      ensures Parsed(dispatched, vRecv) == ParseSome(ck, old(vRecv), nRoom)
    {
      dispatched := [];
      AfterAfter(ParseSome(ck, vRecv, nRoom), [], []);
      for i := 0 to nRoom
        invariant ParseSome(ck, vRecv, nRoom - i).After(dispatched) == ParseSome(ck, old(vRecv), nRoom)
      {
        var fWait;
        fWait, dispatched := ProcessNext(nRoom - i, dispatched);
        if fWait { return; }
      }
      assert dispatched + [] == dispatched;
    }
  }

  /** One step of the parser, behind the messages delivered before. */
  lemma ParseNext(ck: Checksum, b: Bytes, n: nat, earlier: seq<Message>)
    requires n > 0
    ensures ParseSome(ck, b, n).After(earlier) ==
            match ParseStep(ck, b)
            case Stop(rest) => Parsed(earlier, rest)
            case Skip(rest) => ParseSome(ck, rest, n - 1).After(earlier)
            case Deliver(m, rest) => ParseSome(ck, rest, n - 1).After(earlier + [m])
  {
    match ParseStep(ck, b)
    case Stop(rest) => assert earlier + [] == earlier;
    case Skip(rest) =>
    case Deliver(m, rest) => AfterAfter(ParseSome(ck, rest, n - 1), earlier, [m]);
  }

  function Outcome(fWait: bool, message: Option<Message>, rest: Bytes): Step {
    if fWait then Stop(rest) else if message.None? then Skip(rest) else Deliver(message.value, rest)
  }

  lemma HeaderOfBuffer(hdr: Bytes, rest: Bytes)
    requires |hdr| == HEADER_SIZE
    ensures var b := hdr + rest;
      && b[..4] == hdr[..4] && b[4..16] == hdr[4..16] && b[16..20] == hdr[16..20] && b[20..24] == hdr[20..24]
      && b[HEADER_SIZE..] == rest
  {
  }
}
