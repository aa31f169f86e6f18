/**
 The flags word of a DNS header: ten bit fields, and the word that a query
 carries.
 */
module DnsFlags {

  /** The bits from `start` on. */
  function Mask(start: bv5, len: bv5): bv16
    requires start < 16 && len < 16
  {
    ((1 << len) - 1) << start
  }

  function Down(bits: bv16, start: bv5): bv16
    requires start < 16
  {
    bits >> start
  }

  function GetBits(d: bv16, start: bv5, len: bv5): bv16
    requires start < 16 && len < 16
  {
    Down(d & Mask(start, len), start)
  }

  /** A value moved to where its field is, cut to its width. */
  function Put(start: bv5, len: bv5, val: bv16): bv16
    requires start < 16 && len < 16
  {
    (val & ((1 << len) - 1)) << start
  }

  function SetBits(d: bv16, start: bv5, len: bv5, val: bv16): bv16
    requires start < 16 && len < 16
  {
    (d & !Mask(start, len)) | Put(start, len, val)
  }

  /** The fields of section 4.1.1 of RFC 1035, with AD and CD of section 6.1 of RFC 2535. */
  datatype Field = Qr | Opcode | Aa | Tc | Rd | Ra | Z | Ad | Cd | Rcode

  function Start(f: Field): (start: bv5)
    ensures start < 16
  {
    match f
    case Qr => 15
    case Opcode => 11
    case Aa => 10
    case Tc => 9
    case Rd => 8
    case Ra => 7
    case Z => 6
    case Ad => 5
    case Cd => 4
    case Rcode => 0
  }

  function Len(f: Field): (len: bv5)
    ensures len < 16
  {
    if f.Opcode? || f.Rcode? then 4 else 1
  }

  /** The getter and the setter of a field. */
  function Get(d: bv16, f: Field): bv16 {
    GetBits(d, Start(f), Len(f))
  }

  function Set(d: bv16, f: Field, val: bv16): bv16 {
    SetBits(d, Start(f), Len(f), val)
  }

  class ReqFlags {
    var d: bv16

    constructor ()
      ensures d == 0
    {
      d := 0;
    }

    method GetField(f: Field) returns (val: bv16)
      ensures val == Get(d, f)
    {
      val := GetBits(d, Start(f), Len(f));
    }

    method SetField(f: Field, val: bv16)
      modifies this
      ensures d == Set(old(d), f, val)
    {
      d := SetBits(d, Start(f), Len(f), val);
    }
  }

  // ------------------------------------------------------- independence

  /** Bit ranges that do not overlap have masks that do not. */
  lemma RangesApart(s: bv5, l: bv5, t: bv5, k: bv5)
    requires s < 16 && l < 16 && t < 16 && k < 16 && s + l <= t
    ensures Mask(s, l) & Mask(t, k) == 0
  {
  }

  lemma MasksApart(f: Field, g: Field)
    requires f != g
    ensures Mask(Start(f), Len(f)) & Mask(Start(g), Len(g)) == 0
  {
    if Start(f) < Start(g) {
      RangesApart(Start(f), Len(f), Start(g), Len(g));
    } else {
      RangesApart(Start(g), Len(g), Start(f), Len(f));
    }
  }

  lemma PutFits(f: Field, val: bv16)
    ensures Put(Start(f), Len(f), val) & Mask(Start(f), Len(f)) == Put(Start(f), Len(f), val)
  {
    match f
    case Qr =>
    case Opcode =>
    case Aa =>
    case Tc =>
    case Rd =>
    case Ra =>
    case Z =>
    case Ad =>
    case Cd =>
    case Rcode =>
  }

  lemma KeptUnder(d: bv16, x: bv16, m: bv16, other: bv16)
    requires x & m == x && m & other == 0
    ensures ((d & !m) | x) & other == d & other
  {
  }

  lemma SetKeeps(d: bv16, s: bv5, l: bv5, val: bv16, other: bv16)
    requires s < 16 && l < 16
    requires Put(s, l, val) & Mask(s, l) == Put(s, l, val) && Mask(s, l) & other == 0
    ensures SetBits(d, s, l, val) & other == d & other
  {
    KeptUnder(d, Put(s, l, val), Mask(s, l), other);
  }

  lemma GetReads(a: bv16, b: bv16, t: bv5, k: bv5)
    requires t < 16 && k < 16 && a & Mask(t, k) == b & Mask(t, k)
    ensures GetBits(a, t, k) == GetBits(b, t, k)
  {
  }

  lemma SetKeepsField(d: bv16, f: Field, val: bv16, g: Field)
    requires f != g
    ensures Set(d, f, val) & Mask(Start(g), Len(g)) == d & Mask(Start(g), Len(g))
  {
    MasksApart(f, g);
    PutFits(f, val);
    SetKeeps(d, Start(f), Len(f), val, Mask(Start(g), Len(g)));
  }

  lemma SetReads(d: bv16, f: Field, val: bv16)
    ensures Get(Set(d, f, val), f) == val & ((1 << Len(f)) - 1)
  {
    match f
    case Qr =>
    case Opcode =>
    case Aa =>
    case Tc =>
    case Rd =>
    case Ra =>
    case Z =>
    case Ad =>
    case Cd =>
    case Rcode =>
  }

  /** A setter stores its value, cut to the width of the field, and no other field changes. */
  lemma SetThenGet(d: bv16, f: Field, val: bv16, g: Field)
    ensures Get(Set(d, f, val), g) == if g == f then val & ((1 << Len(f)) - 1) else Get(d, g)
  {
    if f == g {
      SetReads(d, f, val);
    } else {
      SetKeepsField(d, f, val, g);
      GetReads(Set(d, f, val), d, Start(g), Len(g));
    }
  }

  // ---------------------------------------------------------- the query

  const RECURSION_DESIRED: bv16 := 0x0100

  /** The setters QR, OPCODE, TC, RD, RA and AA, as `resolve` calls them. */
  method QueryFlags() returns (d: bv16)
    ensures d == RECURSION_DESIRED
  {
    var reqFlags := new ReqFlags();
    reqFlags.SetField(Qr, 0);
    reqFlags.SetField(Opcode, 0);
    reqFlags.SetField(Tc, 0);
    reqFlags.SetField(Rd, 1);
    reqFlags.SetField(Ra, 0);
    reqFlags.SetField(Aa, 0);
    d := reqFlags.d;
  }

  /** The flags word of a query reads as a standard query that asks for recursion and has no other flag. */
  lemma QueryFlagsAreRd(f: Field)
    ensures Get(RECURSION_DESIRED, f) == if f == Rd then 1 else 0
  {
    match f
    case Qr =>
    case Opcode =>
    case Aa =>
    case Tc =>
    case Rd =>
    case Ra =>
    case Z =>
    case Ad =>
    case Cd =>
    case Rcode =>
  }
}
