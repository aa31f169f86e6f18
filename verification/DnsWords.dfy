/**
 The words of a DNS message: 16-bit and 32-bit numbers in network order, and IP
 addresses kept as eight words in memory order.
 The host is little endian, and `bigEndian` is always true, being a lambda
 converted to bool: the byte-swapping branches are the ones taken.
 */
module DnsWords {
  import opened Basics

  type uint16 = x: int | 0 <= x < 0x1_0000
  type uint32 = x: int | 0 <= x < 0x1_0000_0000

  /** `networkEndian(d0, d1)`: the word with `d0` as its high byte. */
  function Word(d0: byte, d1: byte): uint16 {
    d0 * 256 + d1
  }

  function DoubleWord(d0: byte, d1: byte, d2: byte, d3: byte): uint32 {
    Word(d0, d1) * 0x1_0000 + Word(d2, d3)
  }

  /** What `networkEndian(d, stream)` pushes. */
  function WordBytes(d: uint16): (s: Bytes)
    ensures |s| == 2 && Word(s[0], s[1]) == d
  {
    [d / 256, d % 256]
  }

  // ---------------------------------------------------------- addresses

  /** The eight words of an address, as they lie in memory. */
  type Words = s: seq<uint16> | |s| == 8 witness [0, 0, 0, 0, 0, 0, 0, 0]

  const IP4_PREFIX: Words := [0, 0, 0, 0, 0, 0xffff, 0, 0]

  class IpAddr {
    var d: array<uint16>

    predicate Valid()
      reads this
    {
      d.Length == 8
    }

    constructor ()
      ensures Valid() && fresh(d) && d[..] == [0, 0, 0, 0, 0, 0, 0, 0]
    {
      d := new uint16[8](_ => 0);
    }

    method SetIpV4(src: Bytes)
      requires Valid() && |src| == 4
      modifies d
      ensures d[..] == FromIpV4(src)
    {
      for i := 0 to 8
        invariant d[..i] == IP4_PREFIX[..i]
      {
        d[i] := IP4_PREFIX[i];
      }
      d[6] := Word(src[1], src[0]);
      d[7] := Word(src[3], src[2]);
    }

    method Set(netOrder: Bytes)
      requires Valid() && |netOrder| == 16
      modifies d
      ensures d[..] == FromNetOrder(netOrder)
    {
      for i := 0 to 8
        invariant d[..i] == FromNetOrder(netOrder)[..i]
      {
        d[i] := Word(netOrder[i * 2 + 1], netOrder[i * 2]);
      }
    }

    /** The octets from which `Set` would make this very address. */
    method Get() returns (netOrder: Bytes)
      requires Valid()
      ensures |netOrder| == 16 && FromNetOrder(netOrder) == d[..]
    {
      netOrder := Memory(d[..]);
      MemorySetsBack(d[..]);
    }

    method IsIpv4Addr() returns (v4: bool)
      requires Valid()
      ensures v4 == IsMapped(d[..])
    {
      for i := 0 to 6
        invariant d[..i] == IP4_PREFIX[..i]
      {
        if d[i] != IP4_PREFIX[i] {
          assert d[..][..6][i] != IP4_PREFIX[..6][i];
          return false;
        }
      }
      assert d[..][..6] == d[..6];
      v4 := true;
    }
  }

  function FromIpV4(src: Bytes): Words
    requires |src| == 4
  {
    [0, 0, 0, 0, 0, 0xffff, Word(src[1], src[0]), Word(src[3], src[2])]
  }

  function FromNetOrder(src: Bytes): Words
    requires |src| == 16
  {
    seq(8, i requires 0 <= i < 8 => Word(src[i * 2 + 1], src[i * 2]))
  }

  /** The bytes of the words in memory, low byte first. */
  function Memory(d: Words): Bytes {
    seq(16, i requires 0 <= i < 16 => if i % 2 == 0 then d[i / 2] % 256 else d[i / 2] / 256)
  }

  lemma WordJoins(w: uint16)
    ensures Word(w / 256, w % 256) == w
  {
  }

  lemma HalfIndex(i: nat)
    ensures i * 2 / 2 == i && i * 2 % 2 == 0 && (i * 2 + 1) / 2 == i && (i * 2 + 1) % 2 == 1
  {
  }

  lemma MemoryAt(d: Words, i: nat)
    requires i < 8
    ensures Memory(d)[i * 2] == d[i] % 256 && Memory(d)[i * 2 + 1] == d[i] / 256
  {
    HalfIndex(i);
  }

  lemma NetOrderAt(src: Bytes, w: uint16, i: nat)
    requires |src| == 16 && i < 8 && src[i * 2] == w % 256 && src[i * 2 + 1] == w / 256
    ensures FromNetOrder(src)[i] == w
  {
    WordJoins(w);
  }

  lemma MemorySetsBack(d: Words)
    ensures FromNetOrder(Memory(d)) == d
  {
    var m := Memory(d);
    var back := FromNetOrder(m);
    forall i | 0 <= i < 8 ensures back[i] == d[i] {
      MemoryAt(d, i);
      NetOrderAt(m, d[i], i);
    }
  }

  predicate IsMapped(d: Words) {
    d[..6] == IP4_PREFIX[..6]
  }

  const MAPPED_HEAD: Bytes := [0, 0, 0, 0, 0, 0, 0, 0, 0, 0, 0xff, 0xff]

  /** The IPv4-mapped form of section 2.5.5.2 of RFC 4291. */
  function Mapped(src: Bytes): Bytes
    requires |src| == 4
  {
    MAPPED_HEAD + src
  }

  lemma Halves(low: byte, high: byte)
    ensures Word(high, low) % 256 == low && Word(high, low) / 256 == high
  {
  }

  lemma V4ReadsBack(v4: Bytes)
    requires |v4| == 4
    ensures Memory(FromIpV4(v4)) == Mapped(v4) && IsMapped(FromIpV4(v4))
  {
    var d := FromIpV4(v4);
    Halves(v4[0], v4[1]);
    Halves(v4[2], v4[3]);
    assert d[..6] == IP4_PREFIX[..6];
    var m := Memory(d);
    assert forall i | 0 <= i < 10 :: m[i] == 0;
    assert m[10] == 0xff && m[11] == 0xff;
    assert m[12..] == v4;
  }

  lemma V6ReadsBack(v6: Bytes)
    requires |v6| == 16
    ensures Memory(FromNetOrder(v6)) == v6
  {
    forall i | 0 <= i < 16 ensures Memory(FromNetOrder(v6))[i] == v6[i] {
      Halves(v6[i / 2 * 2], v6[i / 2 * 2 + 1]);
    }
  }

  /** An IPv4 address reads back as its mapped form, and an IPv6 address as itself; only mapped ones count as IPv4. */
  lemma AddressesReadBack(v4: Bytes, v6: Bytes)
    requires |v4| == 4 && |v6| == 16
    ensures Memory(FromIpV4(v4)) == Mapped(v4) && IsMapped(FromIpV4(v4))
    ensures Memory(FromNetOrder(v6)) == v6
    ensures IsMapped(FromNetOrder(v6)) <==> v6[..12] == Mapped(v4)[..12]
  {
    V4ReadsBack(v4);
    V6ReadsBack(v6);
    MappedPrefix(v6, v4);
  }

  lemma EqualBytes(hi: byte, lo: byte)
    ensures Word(hi, lo) == 0 <==> hi == 0 && lo == 0
    ensures Word(hi, lo) == 0xffff <==> hi == 0xff && lo == 0xff
  {
  }

  /** The word is all zeros or all ones exactly when both octets are. */
  ghost predicate AgreeAt(d: Words, v6: Bytes, i: nat)
    requires |v6| == 16 && i < 8
  {
    && (d[i] == 0 <==> v6[i * 2] == 0 && v6[i * 2 + 1] == 0)
    && (d[i] == 0xffff <==> v6[i * 2] == 0xff && v6[i * 2 + 1] == 0xff)
  }

  lemma WordsAgree(v6: Bytes, i: nat)
    requires |v6| == 16 && i < 8
    ensures AgreeAt(FromNetOrder(v6), v6, i)
  {
    EqualBytes(v6[i * 2 + 1], v6[i * 2]);
  }

  lemma MappedWords(d: Words)
    ensures IsMapped(d) <==> d[0] == 0 && d[1] == 0 && d[2] == 0 && d[3] == 0 && d[4] == 0 && d[5] == 0xffff
  {
    var prefix := IP4_PREFIX[..6];
    assert prefix == [0, 0, 0, 0, 0, 0xffff];
    if IsMapped(d) {
      assert forall i | 0 <= i < 6 :: d[i] == d[..6][i] == prefix[i];
    }
  }

  lemma MappedBytes(v6: Bytes, v4: Bytes)
    requires |v4| == 4 && |v6| == 16
    ensures v6[..12] == Mapped(v4)[..12] <==> (forall i | 0 <= i < 10 :: v6[i] == 0) && v6[10] == 0xff && v6[11] == 0xff
  {
    var head := Mapped(v4)[..12];
    assert head == [0, 0, 0, 0, 0, 0, 0, 0, 0, 0, 0xff, 0xff];
    if v6[..12] == head {
      assert forall i | 0 <= i < 12 :: v6[i] == v6[..12][i] == head[i];
    }
  }

  lemma MappedIff(d: Words, v6: Bytes, v4: Bytes)
    requires |v4| == 4 && |v6| == 16
    requires AgreeAt(d, v6, 0) && AgreeAt(d, v6, 1) && AgreeAt(d, v6, 2)
    requires AgreeAt(d, v6, 3) && AgreeAt(d, v6, 4) && AgreeAt(d, v6, 5)
    ensures IsMapped(d) <==> v6[..12] == Mapped(v4)[..12]
  {
    MappedWords(d);
    MappedBytes(v6, v4);
  }

  lemma MappedPrefix(v6: Bytes, v4: Bytes)
    requires |v4| == 4 && |v6| == 16
    ensures IsMapped(FromNetOrder(v6)) <==> v6[..12] == Mapped(v4)[..12]
  {
    forall i: nat | i < 8 ensures AgreeAt(FromNetOrder(v6), v6, i) {
      WordsAgree(v6, i);
    }
    MappedIff(FromNetOrder(v6), v6, v4);
  }

  /** An address counts as IPv4 exactly when its network octets begin like a mapped one. */
  lemma MappedIffHead(a: Words)
    ensures IsMapped(a) <==> Memory(a)[..12] == MAPPED_HEAD
  {
    MemorySetsBack(a);
    MappedPrefix(Memory(a), [0, 0, 0, 0]);
    assert Mapped([0, 0, 0, 0])[..12] == MAPPED_HEAD;
  }
}
