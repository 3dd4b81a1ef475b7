/** The wire grammar of the Minecraft handshake, and the theorems that tie the
    classifier to it. */
module HandshakeGrammar {
  import opened Words
  import opened Maps
  import opened Varints
  import opened Handshakes

  /** A handshake frame, field by field, as raw bytes. */
  datatype Frame = Frame(
    length: seq<u8>, version: seq<u8>, addressLength: seq<u8>,
    address: seq<u8>, port: seq<u8>, nextState: seq<u8>)
  {
    function Body(): seq<u8> {
      [0] + version + addressLength + address + port + nextState
    }

    function Bytes(): seq<u8> {
      length + Body()
    }

    /** The fields fill the declared length exactly; packet id is zero. */
    predicate Valid() {
      && IsVarint(length) && ValueOf(length) == |Body()| <= 1024
      && IsVarint(version)
      && IsVarint(addressLength) && ValueOf(addressLength) == |address| <= 255
      && |port| == 2
      && IsVarint(nextState)
    }

    /** What the client is after: next state 1 asks for the status, 2 logs in, and 3 logs in
        after a transfer. The protocol has no others. */
    predicate Says(c: Class) {
      match c
      case Unmatched => false
      case Status => ValueOf(nextState) == 1
      case Login => 2 <= ValueOf(nextState) <= 3
      case Malformed => ValueOf(nextState) == 0 || ValueOf(nextState) > 3
    }
  }

  /** The payload bytes that are both declared and present. */
  function Seen(p: seq<u8>, base: nat, n: nat): seq<u8> {
    if base + n <= |p| then p[base..base + n] else if base <= |p| then p[base..] else []
  }

  /** The bytes s begin with a frame that says c. */
  ghost predicate Opens(s: seq<u8>, c: Class) {
    exists f: Frame :: f.Valid() && f.Bytes() <= s && f.Says(c)
  }

  predicate IsLegacyPing(s: seq<u8>) {
    s != [] && s[0] == 0xFE
  }

  // ---- Every frame is recognised ----

  /** Where the fields of a frame lie. */
  lemma FieldsAt(p: seq<u8>, base: nat, f: Frame)
    requires At(p, base, f.Bytes())
    ensures var o1 := base + |f.length|; var o2 := o1 + 1 + |f.version|;
            var o3 := o2 + |f.addressLength| + |f.address| + |f.port|;
            && At(p, base, f.length) && At(p, o1, [0]) && At(p, o1 + 1, f.version)
            && At(p, o2, f.addressLength) && At(p, o3, f.nextState)
            && o3 + |f.nextState| == base + |f.Bytes()|
  {
    var o1 := base + |f.length|;
    Split(p, base, f.length, f.Body());
    var b5 := f.Body();
    var b4 := [0] + f.version + f.addressLength + f.address + f.port;
    var b2 := [0] + f.version + f.addressLength;
    var b1 := [0] + f.version;
    Split(p, o1, b4, f.nextState);
    assert b4 == b2 + (f.address + f.port);
    Split(p, o1, b2, f.address + f.port);
    Split(p, o1, b1, f.addressLength);
    Split(p, o1, [0], f.version);
  }

  lemma Split(p: seq<u8>, off: nat, a: seq<u8>, b: seq<u8>)
    requires At(p, off, a + b)
    ensures At(p, off, a) && At(p, off + |a|, b)
  {
    assert a == (a + b)[..|a|] && b == (a + b)[|a|..];
  }

  /** The fields after the packet id, read in order. */
  lemma FieldsAreRead(p: seq<u8>, base: nat, n: nat, f: Frame)
    requires f.Valid() && At(p, base, f.Bytes()) && |f.Bytes()| <= n
    ensures var limit := |f.Bytes()|;
            var o1 := |f.length|; var o2 := o1 + 1 + |f.version|;
            var o3 := o2 + |f.addressLength| + |f.address| + 2;
            && ReadField(p, base, 0, n) == Some(Varint(|f.Body()|, o1))
            && base + o1 < |p| && p[base + o1] == 0
            && ReadField(p, base, o1 + 1, limit) == Some(Varint(ValueOf(f.version), |f.version|))
            && ReadField(p, base, o2, limit) == Some(Varint(|f.address|, |f.addressLength|))
            && ReadField(p, base, o3, limit) == Some(Varint(ValueOf(f.nextState), |f.nextState|))
            && o3 + |f.nextState| == limit
  {
    FieldsAt(p, base, f);
    var limit := |f.Bytes()|;
    var o1 := |f.length|;
    var o2 := o1 + 1 + |f.version|;
    IdIsZero(p, base + o1);
    FieldIsRead(p, base, 0, n, f.length);
    FieldIsRead(p, base, o1 + 1, limit, f.version);
    FieldIsRead(p, base, o2, limit, f.addressLength);
    FieldIsRead(p, base, o2 + |f.addressLength| + |f.address| + 2, limit, f.nextState);
  }

  lemma IdIsZero(p: seq<u8>, off: nat)
    requires At(p, off, [0])
    ensures off < |p| && p[off] == 0
  {
    assert p[off] == p[off..off + 1][0];
  }

  /** What the parser decides, given what it reads. */
  lemma FieldsDecide(p: seq<u8>, base: nat, n: nat, length: Varint, version: Varint, address: Varint, nextState: Varint)
    requires base < |p| && p[base] != 0xFE && ReadField(p, base, 0, n) == Some(length)
    requires n >= 1 && 3 <= length.value <= MAX_LENGTH && length.size + length.value <= n
    requires base + length.size < |p| && p[base + length.size] == 0
    requires var limit := length.size + length.value;
             var o2 := length.size + 1 + version.size;
             var o3 := o2 + address.size + address.value + 2;
             && ReadField(p, base, length.size + 1, limit) == Some(version)
             && ReadField(p, base, o2, limit) == Some(address) && address.value <= MAX_ADDRESS
             && ReadField(p, base, o3, limit) == Some(nextState) && o3 < o3 + nextState.size == limit
    ensures Classify(p, base, n) == ClassOf(nextState.value)
  {
    var limit := length.size + length.value;
    var o2 := length.size + 1 + version.size;
    var o3 := o2 + address.size + address.value + 2;
    assert ClassifyNextState(p, base, o3, limit) == ClassOf(nextState.value);
    assert ClassifyAddress(p, base, o2, limit) == ClassOf(nextState.value);
    assert ClassifyBody(p, base, length.size, limit) == ClassOf(nextState.value);
  }

  lemma FrameIsRecognised(p: seq<u8>, base: nat, n: nat, f: Frame)
    requires f.Valid() && At(p, base, f.Bytes()) && |f.Bytes()| <= n && p[base] != 0xFE
    ensures f.Says(Classify(p, base, n))
  {
    FieldsAreRead(p, base, n, f);
    FieldsDecide(p, base, n, Varint(|f.Body()|, |f.length|), Varint(ValueOf(f.version), |f.version|),
                 Varint(|f.address|, |f.addressLength|), Varint(ValueOf(f.nextState), |f.nextState|));
  }

  lemma FieldIsRead(p: seq<u8>, base: nat, off: nat, limit: nat, v: seq<u8>)
    requires IsVarint(v) && At(p, base + off, v) && off + |v| <= limit
    ensures ReadField(p, base, off, limit) == Some(Varint(ValueOf(v), |v|))
  {
    VarintIsRead(p, base + off, base + limit, v);
  }

  // ---- Nothing else is ----

  lemma FieldIsVarint(p: seq<u8>, base: nat, off: nat, limit: nat) returns (v: seq<u8>)
    requires ReadField(p, base, off, limit).Some?
    ensures IsVarint(v) && At(p, base + off, v) && off + |v| <= limit
    ensures ReadField(p, base, off, limit) == Some(Varint(ValueOf(v), |v|))
  {
    ReadIsVarint(p, base + off, base + limit);
    v := p[base + off..base + off + ReadField(p, base, off, limit).value.size];
  }

  /** What a successful parse has read, as a frame. */
  lemma RecognisedIsFrame(p: seq<u8>, base: nat, n: nat) returns (f: Frame)
    requires Classify(p, base, n) != Unmatched && p[base] != 0xFE
    ensures f.Valid() && At(p, base, f.Bytes()) && |f.Bytes()| <= n && f.Says(Classify(p, base, n))
  {
    var length := FieldIsVarint(p, base, 0, n);
    var limit := |length| + ValueOf(length);
    assert Classify(p, base, n) == ClassifyBody(p, base, |length|, limit);
    f := BodyIsFrame(p, base, length, limit);
  }

  lemma BodyIsFrame(p: seq<u8>, base: nat, length: seq<u8>, limit: nat) returns (f: Frame)
    requires At(p, base, length) && ClassifyBody(p, base, |length|, limit) != Unmatched
    ensures f.length == length && At(p, base, f.Bytes()) && |f.Bytes()| == limit
    ensures IsVarint(f.version) && IsVarint(f.nextState) && |f.port| == 2
    ensures IsVarint(f.addressLength) && ValueOf(f.addressLength) == |f.address| <= MAX_ADDRESS
    ensures f.Says(ClassifyBody(p, base, |length|, limit))
  {
    var o1 := |length|;
    var version, o2 := VersionIsRead(p, base, o1, limit);
    var addressLength, address, port, nextState := AddressIsRead(p, base, o2, limit);
    f := Frame(length, version, addressLength, address, port, nextState);
    FieldsJoin(p, base, o1, o2, length, version, addressLength, address, port, nextState);
  }

  lemma VersionIsRead(p: seq<u8>, base: nat, off: nat, limit: nat) returns (version: seq<u8>, next: nat)
    requires ClassifyBody(p, base, off, limit) != Unmatched
    ensures At(p, base + off, [0]) && IsVarint(version) && At(p, base + off + 1, version)
    ensures next == off + 1 + |version|
    ensures ClassifyBody(p, base, off, limit) == ClassifyAddress(p, base, next, limit)
  {
    version := FieldIsVarint(p, base, off + 1, limit);
    next := off + 1 + |version|;
  }

  lemma AddressIsRead(p: seq<u8>, base: nat, off: nat, limit: nat)
    returns (addressLength: seq<u8>, address: seq<u8>, port: seq<u8>, nextState: seq<u8>)
    requires ClassifyAddress(p, base, off, limit) != Unmatched
    ensures IsVarint(addressLength) && IsVarint(nextState) && |port| == 2
    ensures ValueOf(addressLength) == |address| <= MAX_ADDRESS
    ensures At(p, base + off, addressLength)
    ensures At(p, base + off + |addressLength|, address)
    ensures At(p, base + off + |addressLength| + |address|, port)
    ensures At(p, base + off + |addressLength| + |address| + 2, nextState)
    ensures off + |addressLength| + |address| + 2 + |nextState| == limit
    ensures ClassifyAddress(p, base, off, limit) == ClassOf(ValueOf(nextState))
  {
    addressLength := FieldIsVarint(p, base, off, limit);
    var o3 := off + |addressLength|;
    var o4 := o3 + ValueOf(addressLength);
    assert ClassifyAddress(p, base, off, limit) == ClassifyNextState(p, base, o4 + 2, limit);
    nextState := FieldIsVarint(p, base, o4 + 2, limit);
    address, port := p[base + o3..base + o4], p[base + o4..base + o4 + 2];
  }

  /** Fields that lie one behind the other make up a frame. */
  lemma FieldsJoin(p: seq<u8>, base: nat, o1: nat, o2: nat, length: seq<u8>, version: seq<u8>,
                   addressLength: seq<u8>, address: seq<u8>, port: seq<u8>, nextState: seq<u8>)
    requires o1 == |length| && o2 == o1 + 1 + |version|
    requires At(p, base, length) && At(p, base + o1, [0]) && At(p, base + o1 + 1, version)
    requires At(p, base + o2, addressLength)
    requires At(p, base + o2 + |addressLength|, address)
    requires At(p, base + o2 + |addressLength| + |address|, port)
    requires At(p, base + o2 + |addressLength| + |address| + 2, nextState) && |port| == 2
    ensures var f := Frame(length, version, addressLength, address, port, nextState);
            At(p, base, f.Bytes()) && |f.Bytes()| == o2 + |addressLength| + |address| + 2 + |nextState|
  {
    var o := base + o1;
    var b1 := [0] + version;
    var b2 := b1 + addressLength;
    var b3 := b2 + address;
    var b4 := b3 + port;
    Join(p, o, [0], version);
    Join(p, o, b1, addressLength);
    Join(p, o, b2, address);
    Join(p, o, b3, port);
    Join(p, o, b4, nextState);
    Join(p, base, length, b4 + nextState);
  }

  lemma Join(p: seq<u8>, off: nat, a: seq<u8>, b: seq<u8>)
    requires At(p, off, a) && At(p, off + |a|, b)
    ensures At(p, off, a + b)
  {
    assert p[off..off + |a + b|] == p[off..off + |a|] + p[off + |a|..off + |a| + |b|];
  }

  lemma SeenPrefix(p: seq<u8>, base: nat, n: nat, b: seq<u8>)
    requires |b| > 0
    ensures b <= Seen(p, base, n) <==> At(p, base, b) && |b| <= n
  {
    var s := Seen(p, base, n);
    if b <= s {
      assert b == s[..|b|] == p[base..base + |b|];
    }
    if At(p, base, b) && |b| <= n {
      assert b == p[base..base + |b|] == s[..|b|];
    }
  }

  /** The classifier is the grammar: a payload is classified as c exactly when what can be
      seen of it opens with a frame that says c, or with the legacy ping byte for Status. */
  lemma ClassifierIsGrammar(p: seq<u8>, base: nat, n: nat, c: Class)
    requires c != Unmatched
    ensures Classify(p, base, n) == c <==>
            var s := Seen(p, base, n);
            if IsLegacyPing(s) then c == Status else Opens(s, c)
  {
    var s := Seen(p, base, n);
    if s == [] {
      assert forall f: Frame :: f.Valid() ==> |f.Bytes()| > 0;
    } else if !IsLegacyPing(s) {
      if Classify(p, base, n) == c {
        var f := RecognisedIsFrame(p, base, n);
        SeenPrefix(p, base, n, f.Bytes());
        assert Opens(s, c);
      }
      if Opens(s, c) {
        var f: Frame :| f.Valid() && f.Bytes() <= s && f.Says(c);
        SeenPrefix(p, base, n, f.Bytes());
        FrameIsRecognised(p, base, n, f);
      }
    }
  }

  // ---- Fragmentation and coalescing ----

  /** Two frames at the same place are of the same size. */
  lemma FramesArePrefixFree(p: seq<u8>, base: nat, f: Frame, g: Frame)
    requires f.Valid() && g.Valid() && At(p, base, f.Bytes()) && At(p, base, g.Bytes())
    ensures |f.Bytes()| == |g.Bytes()|
  {
    FieldsAt(p, base, f);
    FieldsAt(p, base, g);
    VarintIsRead(p, base, |p|, f.length);
    VarintIsRead(p, base, |p|, g.length);
  }

  /** A frame read off a prefix of the bytes is as long as the frame that lies there. */
  lemma FrameOfPrefix(whole: seq<u8>, p: seq<u8>, base: nat, f: Frame, g: Frame)
    requires p <= whole && f.Valid() && g.Valid() && At(whole, base, f.Bytes()) && At(p, base, g.Bytes())
    ensures |g.Bytes()| == |f.Bytes()|
  {
    assert g.Bytes() == p[base..base + |g.Bytes()|] == whole[base..base + |g.Bytes()|];
    FramesArePrefixFree(whole, base, f, g);
  }

  /** A frame cut short is not a handshake, wherever it is cut: neither when the segment
      is declared shorter nor when bytes of it are missing. */
  lemma FragmentsAreUnmatched(header: seq<u8>, f: Frame, k: nat, n: nat)
    requires f.Valid() && !IsLegacyPing(f.Bytes()) && k <= |f.Bytes()|
    requires k < |f.Bytes()| || n < |f.Bytes()|
    ensures Classify(header + f.Bytes()[..k], |header|, n) == Unmatched
  {
    var p := header + f.Bytes()[..k];
    if Classify(p, |header|, n) != Unmatched {
      assert p[|header|] == f.Bytes()[0];
      var g := RecognisedIsFrame(p, |header|, n);
      var whole := header + f.Bytes();
      assert whole[..|p|] == p && At(whole, |header|, f.Bytes());
      FrameOfPrefix(whole, p, |header|, f, g);
    }
  }

  /** Bytes behind a frame do not change its class, whatever the header declares beyond it. */
  lemma CoalescedKeepsClass(header: seq<u8>, f: Frame, rest: seq<u8>, n: nat)
    requires f.Valid() && !IsLegacyPing(f.Bytes()) && |f.Bytes()| <= n
    ensures f.Says(Classify(header + f.Bytes() + rest, |header|, n))
  {
    var p := header + f.Bytes() + rest;
    assert p[|header|] == f.Bytes()[0];
    assert At(p, |header|, f.Bytes());
    FrameIsRecognised(p, |header|, n, f);
  }

  // ---- Encoding ----

  function Encode(version: u32, address: seq<u8>, port: (u8, u8), nextState: u32): Frame {
    var body := 1 + |EncodeVarint(version)| + |EncodeVarint(|address|)| + |address|
                + 2 + |EncodeVarint(nextState)|;
    Frame(EncodeVarint(body), EncodeVarint(version), EncodeVarint(|address|), address,
          [port.0, port.1], EncodeVarint(nextState))
  }

  lemma EncodeIsValid(version: u32, address: seq<u8>, port: (u8, u8), nextState: u32)
    requires |address| <= 255
    ensures var f := Encode(version, address, port, nextState);
            && f.Valid() && ValueOf(f.nextState) == nextState && |f.Body()| <= 270
            && f.length == EncodeVarint(|f.Body()|)
  {
    EncodeReadsBack(version);
    EncodeReadsBack(|address|);
    EncodeReadsBack(nextState);
    Powers();
    EncodeGroups(|address|, 2);
    var f := Encode(version, address, port, nextState);
    EncodeReadsBack(|f.Body()|);
  }

  lemma LegacyByteIsLength254(b: nat)
    requires b <= 270
    ensures EncodeVarint(b) != []
    ensures EncodeVarint(b)[0] == 0xFE <==> b == 254
  {
  }

  /** What a client encodes is what the filter sees, except that a body of 254 bytes
      announces itself with the legacy ping byte and always reads as a status ping. */
  lemma EncodeThenClassify(header: seq<u8>, version: u32, address: seq<u8>, port: (u8, u8),
                           nextState: u32, rest: seq<u8>, n: nat)
    requires |address| <= 255
    requires |Encode(version, address, port, nextState).Bytes()| <= n
    ensures var f := Encode(version, address, port, nextState);
            Classify(header + f.Bytes() + rest, |header|, n)
            == if |f.Body()| == 254 || nextState == 1 then Status
               else if nextState == 2 || nextState == 3 then Login
               else Malformed
  {
    EncodeIsValid(version, address, port, nextState);
    var f := Encode(version, address, port, nextState);
    LegacyByteIsLength254(|f.Body()|);
    assert f.Bytes()[0] == f.length[0] == (header + f.Bytes() + rest)[|header|];
    if |f.Body()| != 254 {
      CoalescedKeepsClass(header, f, rest, n);
    }
  }

  lemma BodyOf254(address: seq<u8>)
    requires |address| == 246
    ensures |Encode(1000, address, (99, 221), 2).Body()| == 254
  {
    assert EncodeVarint(1000) == [232] + EncodeVarint(7) && EncodeVarint(7) == [7];
    assert EncodeVarint(246) == [246] + EncodeVarint(1) && EncodeVarint(1) == [1];
    assert EncodeVarint(2) == [2];
  }

  /** The exceptional length is reachable, and a login is then taken for a ping. */
  lemma LoginTakenForPing(header: seq<u8>, address: seq<u8>, rest: seq<u8>)
    requires |address| == 246
    ensures var f := Encode(1000, address, (99, 221), 2);
            f.Says(Login) && Classify(header + f.Bytes() + rest, |header|, |f.Bytes()|) == Status
  {
    EncodeIsValid(1000, address, (99, 221), 2);
    BodyOf254(address);
    EncodeThenClassify(header, 1000, address, (99, 221), 2, rest,
                       |Encode(1000, address, (99, 221), 2).Bytes()|);
  }
}
