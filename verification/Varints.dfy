/** VarInts as the datapath reads them: at most five bytes, seven bits a byte, least
    significant group first, the value held in a 32-bit word. */
module Varints {
  import opened Words
  import opened Maps

  function Pow128(n: nat): nat {
    if n == 0 then 1 else 128 * Pow128(n - 1)
  }

  /** The number the groups of bs spell, unbounded. */
  function Groups(bs: seq<u8>): nat {
    if bs == [] then 0 else bs[0] % 128 + 128 * Groups(bs[1..])
  }

  /** A VarInt: continuation bit on every byte but the last, at most five bytes. */
  predicate IsVarint(bs: seq<u8>) {
    && 1 <= |bs| <= 5
    && bs[|bs| - 1] < 128
    && forall i | 0 <= i < |bs| - 1 :: 128 <= bs[i]
  }

  /** Its value: groups beyond bit 31 are lost. */
  function ValueOf(bs: seq<u8>): u32 {
    Groups(bs) % TWO32
  }

  datatype Varint = Varint(value: u32, size: nat)

  /** `(c & 0x7F) << (7 * i)` on a 32-bit word. */
  function Shifted(c: u8, i: nat): u32
    requires i < 5
  {
    var group := c % 128;
    if i == 0 then group
    else if i == 1 then group * 0x80
    else if i == 2 then group * 0x4000
    else if i == 3 then group * 0x20_0000
    else group % 16 * 0x1000_0000  // bits above 31 leave the word
  }

  lemma ShiftedIsTruncated(c: u8, i: nat)
    requires i < 5
    ensures Shifted(c, i) == (c % 128 * Pow128(i)) % TWO32
  {
    Powers();
    var group := c % 128;
    if i == 4 {
      assert group * 0x1000_0000 == group / 16 * TWO32 + group % 16 * 0x1000_0000;
    }
  }

  /** The VarInt read from p[off] on, having read i bytes already: it must end before
      `end`, before the packet does, and within five bytes. */
  function ReadFrom(p: seq<u8>, off: nat, end: nat, i: nat, value: u32): Option<Varint>
    decreases 5 - i
  {
    if i >= 5 || off + i >= end || off + i >= |p| then None
    else
      var next := (value + Shifted(p[off + i], i)) % TWO32;
      if p[off + i] < 128 then Some(Varint(next, i + 1)) else ReadFrom(p, off, end, i + 1, next)
  }

  function ReadVarint(p: seq<u8>, off: nat, end: nat): Option<Varint> {
    ReadFrom(p, off, end, 0, 0)
  }

  // ---- C's operators on words ----

  function Pow2(k: nat): nat {
    if k == 0 then 1 else 2 * Pow2(k - 1)
  }

  /** `a << k` on a 32-bit word. */
  function ShiftLeft(a: u32, k: nat): u32 {
    (a * Pow2(k)) % TWO32
  }

  /** `a | b`, bit by bit. */
  function Or(a: nat, b: nat): nat {
    if a == 0 && b == 0 then 0
    else (if a % 2 == 1 || b % 2 == 1 then 1 else 0) + 2 * Or(a / 2, b / 2)
  }

  lemma {:induction false} OrZero(b: nat)
    ensures Or(0, b) == b
  {
    if b > 0 { OrZero(b / 2); }
  }

  /** Bits below k and a multiple of 2^k have none in common: their OR is their sum. */
  lemma {:induction false} OrIsSum(a: nat, m: nat, k: nat)
    requires a < Pow2(k)
    ensures Or(a, m * Pow2(k)) == a + m * Pow2(k)
  {
    if k == 0 {
      OrZero(m);
    } else {
      var half := m * Pow2(k - 1);
      assert m * Pow2(k) == 2 * half;
      OrIsSum(a / 2, m, k - 1);
    }
  }

  lemma {:induction false} SevenBits(i: nat)
    ensures Pow2(7 * i) == Pow128(i)
  {
    if i > 0 {
      SevenBits(i - 1);
      var k := 7 * (i - 1);
      assert Pow2(k + 2) == 4 * Pow2(k);
      assert Pow2(k + 4) == 4 * Pow2(k + 2);
      assert Pow2(k + 6) == 4 * Pow2(k + 4);
      assert Pow2(k + 7) == 2 * Pow2(k + 6);
    }
  }

  /** The bits of a group that stay in the word. */
  function Kept(c: u8, i: nat): nat {
    if i < 4 then c % 128 else c % 16
  }

  lemma KeptFits(value: nat, c: u8, i: nat)
    requires i < 5 && value < Pow128(i)
    ensures Shifted(c, i) == Kept(c, i) * Pow128(i) && value + Shifted(c, i) < TWO32
  {
    Powers();
    var p := Pow128(i);
    if i == 0 { assert p == 1; }
    else if i == 1 { assert p == 0x80; }
    else if i == 2 { assert p == 0x4000; }
    else if i == 3 { assert p == 0x20_0000; }
    else { assert p == 0x1000_0000; }
  }

  /** `value |= (c & 0x7F) << (7 * i)` adds the next group: it lies above the bits read so
      far, and bits shifted out of the word are dropped by both. */
  lemma OrAddsGroup(value: u32, c: u8, i: nat)
    requires i < 5 && value < Pow128(i)
    ensures Or(value, ShiftLeft(c % 128, 7 * i)) == value + Shifted(c, i) < TWO32
  {
    SevenBits(i);
    ShiftedIsTruncated(c, i);
    assert ShiftLeft(c % 128, 7 * i) == Shifted(c, i);
    KeptFits(value, c, i);
    OrIsSum(value, Kept(c, i), 7 * i);
  }

  // ---- The loop ----

  lemma NextValue(value: u32, c: u8, i: nat)
    requires i < 5 && value < Pow128(i)
    ensures (value + Shifted(c, i)) % TWO32 < Pow128(i + 1)
    ensures i < 4 ==> (value + Shifted(c, i)) % TWO32 == value + c % 128 * Pow128(i)
  {
    Powers();
    assert Pow128(5) == 128 * Pow128(4);
  }

  method AddGroup(value: u32, c: u8, i: nat) returns (next: u32)
    requires i < 5 && value < Pow128(i)
    ensures next == (value + Shifted(c, i)) % TWO32 && next < Pow128(i + 1)
  {
    OrAddsGroup(value, c, i);
    NextValue(value, c, i);
    next := Or(value, ShiftLeft(c % 128, 7 * i));
  }

  /** load_varint: reads at most `avail` declared bytes of a packet from `off` on, and
      fails on a byte the packet does not have. A size of zero reports failure. */
  method LoadVarint(packet: seq<u8>, off: u32, avail: u32) returns (size: u32, value: u32)
    ensures size <= 5 && size <= avail
    ensures size == 0 ==> ReadVarint(packet, off, off + avail) == None
    ensures size > 0 ==> ReadVarint(packet, off, off + avail) == Some(Varint(value, size))
  {
    value := 0;
    for i := 0 to 5
      invariant i <= avail
      invariant ReadFrom(packet, off, off + avail, i, value) == ReadVarint(packet, off, off + avail)
      invariant value < Pow128(i)
    {
      if i >= avail {
        return 0, 0;
      }
      if off + i >= |packet| {
        return 0, 0;
      }
      var c := packet[off + i];
      value := AddGroup(value, c, i);
      if c < 128 {
        return i + 1, value;
      }
    }
    return 0, 0;
  }

  lemma Powers()
    ensures Pow128(0) == 1 && Pow128(1) == 128 && Pow128(2) == 16384
    ensures Pow128(3) == 2097152 && Pow128(4) == 268435456
  {
    assert Pow128(2) == 128 * Pow128(1);
    assert Pow128(3) == 128 * Pow128(2);
    assert Pow128(4) == 128 * Pow128(3);
  }

  // ---- What is read is the grammar's VarInt ----

  lemma {:induction false} GroupsSnoc(bs: seq<u8>, c: u8)
    ensures Groups(bs + [c]) == Groups(bs) + c % 128 * Pow128(|bs|)
  {
    if bs == [] {
      assert [c][1..] == [];
    } else {
      assert (bs + [c])[1..] == bs[1..] + [c];
      GroupsSnoc(bs[1..], c);
      var d, g, p := c % 128, Groups(bs[1..]), Pow128(|bs| - 1);
      assert 128 * (g + d * p) == 128 * g + d * (128 * p);
    }
  }

  lemma NextGroup(v: seq<u8>, i: nat)
    requires i < |v| && i < 5
    ensures (ValueOf(v[..i]) + Shifted(v[i], i)) % TWO32 == ValueOf(v[..i + 1])
  {
    assert v[..i + 1] == v[..i] + [v[i]];
    GroupsSnoc(v[..i], v[i]);
    ShiftedIsTruncated(v[i], i);
    TruncatedSum(Groups(v[..i]), v[i] % 128 * Pow128(i));
  }

  lemma TruncatedSum(a: nat, b: nat)
    ensures (a % TWO32 + b % TWO32) % TWO32 == (a + b) % TWO32
  {
  }

  predicate At(p: seq<u8>, off: nat, bs: seq<u8>) {
    off + |bs| <= |p| && p[off..off + |bs|] == bs
  }

  /** A VarInt is read in full, with its value, whatever follows it. */
  lemma VarintIsRead(p: seq<u8>, off: nat, end: nat, v: seq<u8>)
    requires IsVarint(v) && At(p, off, v) && off + |v| <= end
    ensures ReadVarint(p, off, end) == Some(Varint(ValueOf(v), |v|))
  {
    assert v[..0] == [];
    RestIsRead(p, off, end, v, 0);
  }

  lemma {:induction false} RestIsRead(p: seq<u8>, off: nat, end: nat, v: seq<u8>, i: nat)
    requires IsVarint(v) && At(p, off, v) && off + |v| <= end && i < |v|
    ensures ReadFrom(p, off, end, i, ValueOf(v[..i])) == Some(Varint(ValueOf(v), |v|))
    decreases |v| - i
  {
    assert p[off + i] == v[i];
    NextGroup(v, i);
    if i + 1 < |v| {
      RestIsRead(p, off, end, v, i + 1);
    } else {
      assert v[..i + 1] == v;
    }
  }

  /** Whatever is read is a VarInt with that value, inside the packet and the declared end. */
  lemma ReadIsVarint(p: seq<u8>, off: nat, end: nat)
    requires ReadVarint(p, off, end).Some?
    ensures var r := ReadVarint(p, off, end).value;
            && off + r.size <= |p| && off + r.size <= end && 1 <= r.size <= 5
            && IsVarint(p[off..off + r.size]) && r.value == ValueOf(p[off..off + r.size])
  {
    RestIsVarint(p, off, end, 0, 0);
  }

  lemma {:induction false} RestIsVarint(p: seq<u8>, off: nat, end: nat, i: nat, value: u32)
    requires off + i <= |p| && (forall j | off <= j < off + i :: 128 <= p[j])
    requires value == ValueOf(p[off..off + i]) && ReadFrom(p, off, end, i, value).Some?
    ensures var r := ReadFrom(p, off, end, i, value).value;
            && i < r.size <= 5 && off + r.size <= |p| && off + r.size <= end
            && IsVarint(p[off..off + r.size]) && r.value == ValueOf(p[off..off + r.size])
    decreases 5 - i
  {
    var bs := p[off..off + i + 1];
    assert bs[..i] == p[off..off + i] && bs[..i + 1] == bs && bs[i] == p[off + i];
    NextGroup(bs, i);
    assert (value + Shifted(p[off + i], i)) % TWO32 == ValueOf(bs);
    if p[off + i] >= 128 {
      RestIsVarint(p, off, end, i + 1, ValueOf(bs));
    }
  }

  // ---- The encoder ----

  function EncodeVarint(v: nat): seq<u8> {
    if v < 128 then [v] else [v % 128 + 128] + EncodeVarint(v / 128)
  }

  lemma {:induction false} EncodeGroups(v: nat, n: nat)
    requires v < Pow128(n) && n >= 1
    ensures var bs := EncodeVarint(v);
            && 1 <= |bs| <= n && Groups(bs) == v && bs[|bs| - 1] < 128
            && (forall i | 0 <= i < |bs| - 1 :: 128 <= bs[i])
  {
    if v < 128 {
      assert [v][1..] == [];
    } else {
      assert n >= 2;
      EncodeGroups(v / 128, n - 1);
      var rest := EncodeVarint(v / 128);
      assert EncodeVarint(v)[1..] == rest;
    }
  }

  /** Every 32-bit value has an encoding that reads back as itself. */
  lemma EncodeReadsBack(v: u32)
    ensures IsVarint(EncodeVarint(v)) && ValueOf(EncodeVarint(v)) == v
  {
    Powers();
    assert Pow128(5) == 128 * Pow128(4);
    EncodeGroups(v, 5);
  }

  lemma VarintRoundTrip(p: seq<u8>, off: nat, v: u32)
    requires At(p, off, EncodeVarint(v))
    ensures ReadVarint(p, off, |p|) == Some(Varint(v, |EncodeVarint(v)|))
  {
    EncodeReadsBack(v);
    VarintIsRead(p, off, |p|, EncodeVarint(v));
  }
}
