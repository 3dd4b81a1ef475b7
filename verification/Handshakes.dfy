/** classify_handshake: decides from the bytes of one TCP payload whether it opens a
    status ping, a login, or neither. */
module Handshakes {
  import opened Words
  import opened Maps
  import opened Varints

  datatype Class = Unmatched | Status | Login | Malformed

  const LEGACY_PING: u8 := 0xFE
  const MAX_LENGTH: u32 := 1024
  const MAX_ADDRESS: u32 := 255

  function ClassOf(nextState: u32): Class {
    if nextState == 1 then Status
    else if nextState == 2 || nextState == 3 then Login
    else Malformed
  }

  /** The VarInt of the payload at p[base..] that starts at off and ends by limit. */
  function ReadField(p: seq<u8>, base: nat, off: nat, limit: nat): Option<Varint> {
    ReadVarint(p, base + off, base + limit)
  }

  /** The class of the payload that starts at p[base] and is declared to be n bytes long. */
  function Classify(p: seq<u8>, base: nat, n: nat): Class {
    if n < 1 || base >= |p| then Unmatched
    else if p[base] == LEGACY_PING then Status
    else
      match ReadField(p, base, 0, n)
      case None => Unmatched
      case Some(length) =>
        if length.value < 3 || length.value > MAX_LENGTH || n - length.size < length.value then Unmatched
        else ClassifyBody(p, base, length.size, length.size + length.value)
  }

  /** The class of a frame whose body is declared to reach from off to limit. */
  function ClassifyBody(p: seq<u8>, base: nat, off: nat, limit: nat): Class {
    if base + off >= |p| || p[base + off] != 0 || off + 1 >= limit then Unmatched
    else
      match ReadField(p, base, off + 1, limit)
      case None => Unmatched
      case Some(version) => ClassifyAddress(p, base, off + 1 + version.size, limit)
  }

  function ClassifyAddress(p: seq<u8>, base: nat, off: nat, limit: nat): Class {
    if off >= limit then Unmatched
    else
      match ReadField(p, base, off, limit)
      case None => Unmatched
      case Some(length) =>
        if length.value > MAX_ADDRESS then Unmatched
        else ClassifyNextState(p, base, off + length.size + length.value + 2, limit)
  }

  function ClassifyNextState(p: seq<u8>, base: nat, off: nat, limit: nat): Class {
    if off >= limit then Unmatched
    else
      match ReadField(p, base, off, limit)
      case None => Unmatched
      case Some(nextState) =>
        if off + nextState.size != limit then Unmatched else ClassOf(nextState.value)
  }

  method LoadField(packet: seq<u8>, payloadOff: u32, off: u32, limit: u32) returns (size: u32, value: u32)
    requires off <= limit && payloadOff + limit < TWO32
    ensures size <= 5 && size <= limit - off
    ensures size == 0 ==> ReadField(packet, payloadOff, off, limit) == None
    ensures size > 0 ==> ReadField(packet, payloadOff, off, limit) == Some(Varint(value, size))
  {
    size, value := LoadVarint(packet, payloadOff + off, limit - off);
  }

  /** The datapath's parser, on 32-bit offsets: every offset it forms is checked to stay
      in range and no subtraction goes below zero. Callers pass an offset of at most
      14 + 60 + 60 header bytes and a length below the 16-bit IP total. */
  method ClassifyHandshake(packet: seq<u8>, payloadOff: u32, payloadLen: u32) returns (hs: Class)
    requires payloadOff <= 134 && payloadLen < 0x1_0000
    ensures hs == Classify(packet, payloadOff, payloadLen)
  {
    if payloadLen < 1 {
      return Unmatched;
    }
    if payloadOff >= |packet| {
      return Unmatched;
    }
    if packet[payloadOff] == LEGACY_PING {
      return Status;
    }

    var off: u32 := 0;
    var k, pktLen := LoadField(packet, payloadOff, off, payloadLen);
    if k == 0 {
      return Unmatched;
    }
    if pktLen < 3 || pktLen > MAX_LENGTH {
      return Unmatched;
    }
    off := off + k;

    if payloadLen - off < pktLen {
      return Unmatched;
    }
    var limit: u32 := off + pktLen;
    assert Classify(packet, payloadOff, payloadLen) == ClassifyBody(packet, payloadOff, off, limit);
    hs := ClassifyFrame(packet, payloadOff, off, limit);
  }

  /** The rest of the parser: the fields of a frame whose length fits the payload. */
  method ClassifyFrame(packet: seq<u8>, payloadOff: u32, start: u32, limit: u32) returns (hs: Class)
    requires payloadOff <= 134 && start + 3 <= limit < 0x1_0000
    ensures hs == ClassifyBody(packet, payloadOff, start, limit)
  {
    var off: u32 := start;
    if payloadOff + off >= |packet| {
      return Unmatched;
    }
    if packet[payloadOff + off] != 0 {
      return Unmatched;
    }
    off := off + 1;

    if off >= limit {
      return Unmatched;
    }
    var k, version := LoadField(packet, payloadOff, off, limit);
    if k == 0 {
      return Unmatched;
    }
    off := off + k;

    if off >= limit {
      return Unmatched;
    }
    var addrLen: u32;
    k, addrLen := LoadField(packet, payloadOff, off, limit);
    if k == 0 {
      return Unmatched;
    }
    if addrLen > MAX_ADDRESS {
      return Unmatched;
    }
    off := off + k;

    var nsOff: u32 := off + addrLen + 2;
    if nsOff >= limit {
      return Unmatched;
    }
    var nextState: u32;
    k, nextState := LoadField(packet, payloadOff, nsOff, limit);
    if k == 0 {
      return Unmatched;
    }
    if nsOff + k != limit {
      return Unmatched;
    }
    if nextState == 1 {
      return Status;
    }
    if nextState == 2 || nextState == 3 {
      return Login;
    }
    return Malformed;
  }
}
