/**
 Domain names on the wire: the encoder and the decoder of the DNS client, and
 exactly which names they get right.
 */
module DnsNames {
  import opened Basics

  const DOT: byte := 46
  const MAX_DOMAIN_LEN: nat := 64
  const SIZE_T: nat := 0x1_0000_0000_0000_0000
  const NPOS: nat := SIZE_T - 1

  // -------------------------------------------------- names and labels

  predicate DotFree(text: Bytes) {
    forall i | 0 <= i < |text| :: text[i] != DOT
  }

  /** Labels of 1 to 63 octets (section 2.3.4 of RFC 1035). */
  predicate LegalSizes(labels: seq<Bytes>) {
    forall i | 0 <= i < |labels| :: 1 <= |labels[i]| <= 63
  }

  /** The labels of a name in text: dot-free and of legal size. */
  predicate LegalLabels(labels: seq<Bytes>) {
    labels != [] && LegalSizes(labels) && forall i | 0 <= i < |labels| :: DotFree(labels[i])
  }

  function Join(labels: seq<Bytes>): Bytes {
    if labels == [] then []
    else if |labels| == 1 then labels[0]
    else labels[0] + ([DOT] + Join(labels[1..]))
  }

  function Split(name: Bytes): (labels: seq<Bytes>)
    ensures labels != []
  {
    if name == [] then [[]]
    else
      var rest := Split(name[1..]);
      if name[0] == DOT then [[]] + rest else [[name[0]] + rest[0]] + rest[1..]
  }

  /** Every name is the join of its dot-free labels. */
  lemma {:induction false} JoinSplit(name: Bytes)
    ensures Join(Split(name)) == name && forall i | 0 <= i < |Split(name)| :: DotFree(Split(name)[i])
  {
    if name != [] {
      JoinSplit(name[1..]);
      var rest := Split(name[1..]);
      if name[0] == DOT {
        assert Split(name)[1..] == rest;
      } else {
        assert Split(name)[1..] == rest[1..];
      }
    }
  }

  /** `piece` stands in `data` at `pos`. */
  ghost predicate IsAt(data: Bytes, pos: nat, piece: Bytes) {
    pos + |piece| <= |data| && forall j | 0 <= j < |piece| :: data[pos + j] == piece[j]
  }

  lemma IsAtSplits(data: Bytes, pos: nat, a: Bytes, b: Bytes)
    requires IsAt(data, pos, a + b)
    ensures IsAt(data, pos, a) && IsAt(data, pos + |a|, b)
  {
    assert forall j | 0 <= j < |a| :: (a + b)[j] == a[j];
    forall j | 0 <= j < |b| ensures data[pos + |a| + j] == b[j] {
      assert data[pos + (|a| + j)] == (a + b)[|a| + j];
    }
  }

  // ------------------------------------------------------- the wire form

  /** How a name ends on the wire: the root's zero octet, or a pointer (section 4.1.4 of RFC 1035). */
  datatype Terminator = Zero | Pointer(high: byte, low: byte)

  datatype WireName = WireName(labels: seq<Bytes>, end: Terminator)

  predicate LegalWire(n: WireName) {
    LegalSizes(n.labels) && (n.end.Pointer? ==> n.end.high >= 0xC0)
  }

  function EndBytes(end: Terminator): Bytes {
    match end
    case Zero => [0]
    case Pointer(high, low) => [high, low]
  }

  function Tail(n: WireName): WireName
    requires n.labels != []
  {
    WireName(n.labels[1..], n.end)
  }

  /** Length octet and octets of each label (section 3.1 of RFC 1035), then the end. */
  function WireBytes(n: WireName): Bytes
    requires LegalWire(n)
    decreases |n.labels|
  {
    if n.labels == [] then EndBytes(n.end)
    else [|n.labels[0]|] + (n.labels[0] + WireBytes(Tail(n)))
  }

  /** The label sequence of a name in text. */
  function LabelSequence(labels: seq<Bytes>): Bytes
    requires LegalSizes(labels)
  {
    WireBytes(WireName(labels, Zero))
  }

  // -------------------------------------------------------------- encoder

  /** `name.find('.', from)`. */
  function Find(name: Bytes, from: nat): nat
    requires |name| < NPOS
    decreases |name| - from
  {
    if from >= |name| then NPOS else if name[from] == DOT then from else Find(name, from + 1)
  }

  /** Unsigned 64-bit subtraction and increment. */
  function Minus(a: nat, b: nat): nat
    requires a < SIZE_T && b < SIZE_T
  {
    if a >= b then a - b else a - b + SIZE_T
  }

  function Succ(a: nat): nat
    requires a < SIZE_T
  {
    if a == NPOS then 0 else a + 1
  }

  lemma {:induction false} FindInRange(name: Bytes, from: nat)
    requires |name| < NPOS
    ensures Find(name, from) <= NPOS
    decreases |name| - from
  {
    if from < |name| && name[from] != DOT {
      FindInRange(name, from + 1);
    }
  }

  /** The length octet for the label after `prevDotPos`, and the position of the dot that ends it. */
  function NextLen(name: Bytes, prevDotPos: nat): (r: (nat, nat))
    requires |name| < NPOS && prevDotPos <= NPOS
    ensures r.0 < MAX_DOMAIN_LEN && r.1 <= NPOS
  {
    FindInRange(name, Succ(prevDotPos));
    var dotPos := Find(name, Succ(prevDotPos));
    var len := if dotPos == NPOS then Minus(|name|, Succ(prevDotPos))
               else if prevDotPos == 0 then Minus(dotPos, prevDotPos)
               else Minus(dotPos, Succ(prevDotPos));
    (if len >= MAX_DOMAIN_LEN then MAX_DOMAIN_LEN - 1 else len, dotPos)
  }

  /** What the loop of the encoder pushes from the i-th octet of the name on. */
  function EncodeFrom(name: Bytes, i: nat, len: nat, prevDotPos: nat): Bytes
    requires |name| < NPOS && i <= |name| && prevDotPos <= NPOS
    decreases |name| - i
  {
    if i == |name| then [0]
    else if name[i] == DOT then
      var (len, dotPos) := NextLen(name, prevDotPos);
      [len] + EncodeFrom(name, i + 1, len, dotPos)
    else if len != NPOS then
      [name[i]] + EncodeFrom(name, i + 1, if len == 0 then NPOS else len - 1, prevDotPos)
    else EncodeFrom(name, i + 1, len, prevDotPos)
  }

  function EncodedName(name: Bytes): Bytes
    requires |name| < NPOS
  {
    var (len, dotPos) := NextLen(name, 0);
    [len] + EncodeFrom(name, 0, len, dotPos)
  }

  method GetLen(name: Bytes, prevDotPos: nat) returns (len: nat, dotPos: nat)
    requires |name| < NPOS && prevDotPos <= NPOS
    ensures (len, dotPos) == NextLen(name, prevDotPos) && dotPos <= NPOS
  {
    FindInRange(name, Succ(prevDotPos));
    dotPos := Find(name, Succ(prevDotPos));
    if dotPos == NPOS {
      len := Minus(|name|, Succ(prevDotPos));
    } else if prevDotPos == 0 {
      len := Minus(dotPos, prevDotPos);
    } else {
      len := Minus(dotPos, Succ(prevDotPos));
    }
    if len >= MAX_DOMAIN_LEN {
      len := MAX_DOMAIN_LEN - 1;
    }
  }

  /** Appends the encoded name to `query`. */
  method EncodeName(name: Bytes, query: Bytes) returns (stream: Bytes)
    requires |name| < NPOS
    ensures stream == query + EncodedName(name)
  {
    stream := query;
    var len: nat, prevDotPos: nat := GetLen(name, 0);
    stream := stream + [len];
    var i := 0;
    while i < |name|
      invariant 0 <= i <= |name| && prevDotPos <= NPOS
      invariant stream + EncodeFrom(name, i, len, prevDotPos) == query + EncodedName(name)
    {
      if name[i] == DOT {
        len, prevDotPos := GetLen(name, prevDotPos);
        stream := stream + [len];
      } else if len != NPOS {
        stream := stream + [name[i]];
        len := if len == 0 then NPOS else len - 1;
      }
      i := i + 1;
    }
    stream := stream + [0];
  }

  lemma {:induction false} FindAfter(name: Bytes, from: nat, text: Bytes)
    requires |name| < NPOS && IsAt(name, from, text) && DotFree(text)
    requires from + |text| < |name| ==> name[from + |text|] == DOT
    ensures Find(name, from) == if from + |text| == |name| then NPOS else from + |text|
    decreases |text|
  {
    if text != [] {
      IsAtSplits(name, from, [text[0]], text[1..]) by { assert [text[0]] + text[1..] == text; }
      FindAfter(name, from + 1, text[1..]);
    }
  }

  /** The length octet that the encoder writes for a label. */
  function Capped(size: nat): nat {
    if size >= MAX_DOMAIN_LEN then MAX_DOMAIN_LEN - 1 else size
  }

  /** The octets of a label that the loop copies while it counts down from `len`. */
  function Copied(text: Bytes, len: nat): Bytes {
    if text == [] || len == NPOS then [] else [text[0]] + Copied(text[1..], if len == 0 then NPOS else len - 1)
  }

  lemma {:induction false} CopiedIsPrefix(text: Bytes, len: nat)
    requires len < NPOS
    ensures Copied(text, len) == if |text| <= len + 1 then text else text[..len + 1]
    decreases |text|
  {
    if text != [] {
      if len > 0 {
        CopiedIsPrefix(text[1..], len - 1);
      }
      assert [text[0]] + text[1..] == text;
      assert |text| > len + 1 ==> [text[0]] + text[1..][..len] == text[..len + 1];
    }
  }

  /** At the end of a label: the end of the name or a dot. */
  predicate LabelEnds(name: Bytes, i: nat) {
    i == |name| || (i < |name| && name[i] == DOT)
  }

  lemma {:induction false} LabelIsCopied(name: Bytes, i: nat, text: Bytes, len: nat, prevDotPos: nat)
    requires |name| < NPOS && prevDotPos <= NPOS && len <= NPOS
    requires DotFree(text) && IsAt(name, i, text) && LabelEnds(name, i + |text|)
    ensures EncodeFrom(name, i, len, prevDotPos) == Copied(text, len) + EncodeFrom(name, i + |text|, 0, prevDotPos)
    decreases |text|
  {
    var end := EncodeFrom(name, i + |text|, 0, prevDotPos);
    if text != [] {
      var first, rest := [text[0]], text[1..];
      var left := if len == NPOS || len == 0 then NPOS else len - 1;
      assert first + rest == text;
      IsAtSplits(name, i, first, rest);
      LabelIsCopied(name, i + 1, rest, left, prevDotPos);
      assert name[i + 0] == text[0];
      if len == NPOS {
        assert Copied(rest, NPOS) == [] == Copied(text, len);
      } else {
        Associate(first, Copied(rest, left), end);
      }
    } else {
      assert [] + end == end;
    }
  }

  /** The labels from `i` to the end of the name. */
  ghost predicate LabelsAt(name: Bytes, i: nat, labels: seq<Bytes>) {
    && labels != [] && IsAt(name, i, Join(labels)) && i + |Join(labels)| == |name|
    && forall j | 0 <= j < |labels| :: DotFree(labels[j])
  }

  lemma LabelsAtSplits(name: Bytes, i: nat, labels: seq<Bytes>)
    requires LabelsAt(name, i, labels)
    ensures IsAt(name, i, labels[0])
    ensures var next := i + |labels[0]|;
            if |labels| == 1 then next == |name|
            else next < |name| && name[next] == DOT && LabelsAt(name, next + 1, labels[1..])
  {
    if |labels| > 1 {
      IsAtSplits(name, i, labels[0], [DOT] + Join(labels[1..]));
      IsAtSplits(name, i + |labels[0]|, [DOT], Join(labels[1..]));
      assert name[i + |labels[0]| + 0] == [DOT][0];
    }
  }

  /** What the encoder makes of a label: one of more than 63 octets gets a length octet of 63 and 64 octets. */
  function Block(text: Bytes): Bytes {
    [Capped(|text|)] + (if |text| <= MAX_DOMAIN_LEN then text else text[..MAX_DOMAIN_LEN])
  }

  function Blocks(labels: seq<Bytes>): Bytes {
    if labels == [] then [0] else Block(labels[0]) + Blocks(labels[1..])
  }

  lemma BlockIsCopied(text: Bytes)
    ensures Block(text) == [Capped(|text|)] + Copied(text, Capped(|text|))
  {
    CopiedIsPrefix(text, Capped(|text|));
  }

  /** From the label that starts at `i` on, once its length octet is known to be the right one. */
  lemma {:induction false} EncodesLabels(name: Bytes, i: nat, labels: seq<Bytes>, dotPos: nat)
    requires |name| < NPOS && LabelsAt(name, i, labels)
    requires dotPos == if |labels| == 1 then NPOS else i + |labels[0]|
    requires |labels| > 1 ==> dotPos > 0
    ensures [Capped(|labels[0]|)] + EncodeFrom(name, i, Capped(|labels[0]|), dotPos) == Blocks(labels)
    decreases |labels|
  {
    var x, rest := labels[0], labels[1..];
    var len := Capped(|x|);
    LabelsAtSplits(name, i, labels);
    LabelIsCopied(name, i, x, len, dotPos);
    if |labels| > 1 {
      NextLenIsRight(name, dotPos, rest);
      EncodesLabels(name, dotPos + 1, rest, NextLen(name, dotPos).1);
    }
    assert EncodeFrom(name, i + |x|, 0, dotPos) == Blocks(rest);
    BlockIsCopied(x);
    Associate([len], Copied(x, len), Blocks(rest));
  }

  lemma NextLenIsRight(name: Bytes, dotPos: nat, labels: seq<Bytes>)
    requires |name| < NPOS && 0 < dotPos && LabelsAt(name, dotPos + 1, labels)
    ensures NextLen(name, dotPos) == (Capped(|labels[0]|), if |labels| == 1 then NPOS else dotPos + 1 + |labels[0]|)
  {
    LabelsAtSplits(name, dotPos + 1, labels);
    FindAfter(name, dotPos + 1, labels[0]);
  }

  /** The first length octet: one short when the name has no dot. */
  lemma FirstLen(name: Bytes, labels: seq<Bytes>)
    requires |name| < NPOS && LabelsAt(name, 0, labels) && labels[0] != []
    ensures NextLen(name, 0) == if |labels| == 1 then (Capped(|labels[0]| - 1), NPOS) else (Capped(|labels[0]|), |labels[0]|)
  {
    var x := labels[0];
    LabelsAtSplits(name, 0, labels);
    assert [x[0]] + x[1..] == x;
    IsAtSplits(name, 0, [x[0]], x[1..]);
    FindAfter(name, 1, x[1..]);
    assert Find(name, 1) == if |labels| == 1 then NPOS else |x|;
  }

  /** What the encoder yields for every name of two labels or more, of any sizes, that does not begin with a dot. */
  lemma EncodedAsBlocks(labels: seq<Bytes>)
    requires |labels| >= 2 && labels[0] != [] && (forall i | 0 <= i < |labels| :: DotFree(labels[i]))
    requires |Join(labels)| < NPOS
    ensures EncodedName(Join(labels)) == Blocks(labels)
  {
    FirstLen(Join(labels), labels);
    EncodesLabels(Join(labels), 0, labels, |labels[0]|);
  }

  lemma {:induction false} LegalBlocks(labels: seq<Bytes>)
    requires LegalSizes(labels)
    ensures Blocks(labels) == LabelSequence(labels)
  {
    if labels != [] {
      LegalBlocks(labels[1..]);
      Associate([|labels[0]|], labels[0], Blocks(labels[1..]));
    }
  }

  /**
   The encoder yields the label sequence of RFC 1035 exactly for the legal names
   of two labels or more: for a name without a dot the length octet is one short.
   */
  lemma EncodesIffTwoLabels(labels: seq<Bytes>)
    requires LegalLabels(labels) && |Join(labels)| < NPOS
    ensures EncodedName(Join(labels)) == LabelSequence(labels) <==> |labels| >= 2
  {
    var name := Join(labels);
    if |labels| >= 2 {
      EncodedAsBlocks(labels);
      LegalBlocks(labels);
    } else {
      FirstLen(name, labels);
      assert EncodedName(name)[0] == |labels[0]| - 1;
      assert LabelSequence(labels)[0] == |labels[0]|;
    }
  }

  // -------------------------------------------------------------- decoder

  predicate NoZeroOctet(text: Bytes) {
    forall i | 0 <= i < |text| :: text[i] != 0
  }

  /** Not the bare root, and no zero octet inside a label. */
  predicate Readable(n: WireName) {
    (n.labels != [] || n.end.Pointer?) && forall i | 0 <= i < |n.labels| :: NoZeroOctet(n.labels[i])
  }

  /** The text the decoder gives: it does not follow a pointer, and leaves a dot before one. */
  function Text(n: WireName): Bytes
    decreases |n.labels|
  {
    if n.labels == [] then []
    else if |n.labels| == 1 then n.labels[0] + (if n.end.Pointer? then [DOT] else [])
    else n.labels[0] + ([DOT] + Text(Tail(n)))
  }

  lemma {:induction false} TextIsJoin(labels: seq<Bytes>)
    ensures Text(WireName(labels, Zero)) == Join(labels)
    decreases |labels|
  {
    if |labels| > 1 {
      TextIsJoin(labels[1..]);
    }
  }

  datatype NameRead = NameRead(name: Bytes, curPos: nat)

  function After(text: Bytes, r: Option<NameRead>): Option<NameRead> {
    if r.None? then None else Some(NameRead(text + r.value.name, r.value.curPos))
  }

  /** `(len & 0xC0) == 0xC0`. */
  predicate IsPointer(len: nat) {
    len / 64 % 4 == 3
  }

  /** The decoder's loop; None where it reads past the end of the message. */
  function DecodeFrom(data: Bytes, curPos: nat, len: nat): (r: Option<NameRead>)
    ensures r.Some? ==> curPos < r.value.curPos <= |data|
    decreases |data| - curPos
  {
    if curPos >= |data| then None
    else if data[curPos] == 0 || IsPointer(len) then Some(NameRead([], curPos + 1))
    else if len == 0 then After([DOT], DecodeFrom(data, curPos + 1, data[curPos]))
    else After([data[curPos]], DecodeFrom(data, curPos + 1, len - 1))
  }

  function DecodedName(data: Bytes, curPos: nat): (r: Option<NameRead>)
    ensures r.Some? ==> curPos + 1 < r.value.curPos <= |data|
  {
    if curPos >= |data| then None else DecodeFrom(data, curPos + 1, data[curPos])
  }

  method DecodeName(data: Bytes, start: nat) returns (r: Option<NameRead>)
    ensures r == DecodedName(data, start)
  {
    if start >= |data| {
      return None;
    }
    var name: Bytes := [];
    var len: nat := data[start];
    var curPos := start + 1;
    AfterNothing(DecodedName(data, start));
    while curPos < |data| && data[curPos] != 0
      invariant start < curPos <= |data|
      invariant DecodedName(data, start) == After(name, DecodeFrom(data, curPos, len))
      decreases |data| - curPos
    {
      if IsPointer(len) {
        break;
      }
      var c := if len == 0 then DOT else data[curPos];
      len := if len == 0 then data[curPos] else len - 1;
      curPos := curPos + 1;
      AfterAfter(name, [c], DecodeFrom(data, curPos, len));
      name := name + [c];
    }
    assert name + [] == name;
    r := if curPos >= |data| then None else Some(NameRead(name, curPos + 1));
  }

  lemma AfterAfter(a: Bytes, b: Bytes, r: Option<NameRead>)
    ensures After(a, After(b, r)) == After(a + b, r)
  {
    if r.Some? {
      Associate(a, b, r.value.name);
    }
  }

  lemma AfterNothing(r: Option<NameRead>)
    ensures After([], r) == r
  {
    if r.Some? {
      assert [] + r.value.name == r.value.name;
    }
  }

  lemma {:induction false} LabelIsRead(data: Bytes, curPos: nat, text: Bytes)
    requires IsAt(data, curPos, text) && NoZeroOctet(text) && |text| <= 63
    ensures DecodeFrom(data, curPos, |text|) == After(text, DecodeFrom(data, curPos + |text|, 0))
    decreases |text|
  {
    if text != [] {
      var first, rest := [text[0]], text[1..];
      assert first + rest == text;
      IsAtSplits(data, curPos, first, rest);
      LabelIsRead(data, curPos + 1, rest);
      AfterAfter(first, rest, DecodeFrom(data, curPos + |text|, 0));
      assert data[curPos + 0] == text[0];
    } else {
      AfterNothing(DecodeFrom(data, curPos, 0));
    }
  }

  lemma WireSplits(data: Bytes, pos: nat, n: WireName)
    requires LegalWire(n) && n.labels != [] && IsAt(data, pos, WireBytes(n))
    ensures pos < |data| && data[pos] == |n.labels[0]| && IsAt(data, pos + 1, n.labels[0])
    ensures IsAt(data, pos + 1 + |n.labels[0]|, WireBytes(Tail(n)))
  {
    IsAtSplits(data, pos, [|n.labels[0]|], n.labels[0] + WireBytes(Tail(n)));
    IsAtSplits(data, pos + 1, n.labels[0], WireBytes(Tail(n)));
    assert data[pos + 0] == [|n.labels[0]|][0];
  }

  /** From a label on, its length octet being read already. */
  lemma {:induction false} ReadsLabels(data: Bytes, pos: nat, n: WireName)
    requires LegalWire(n) && Readable(n) && n.labels != [] && IsAt(data, pos, WireBytes(n))
    ensures DecodeFrom(data, pos + 1, |n.labels[0]|) == Some(NameRead(Text(n), pos + |WireBytes(n)|))
    decreases |n.labels|
  {
    var x, rest := n.labels[0], Tail(n);
    var next := pos + 1 + |x|;
    WireSplits(data, pos, n);
    LabelIsRead(data, pos + 1, x);
    if rest.labels == [] {
      EndIsRead(data, next, n.end);
      assert x + [] == x;
    } else {
      WireSplits(data, next, rest);
      ReadsLabels(data, next, rest);
      assert data[next] == |rest.labels[0]|;
    }
  }

  lemma EndIsRead(data: Bytes, pos: nat, end: Terminator)
    requires IsAt(data, pos, EndBytes(end)) && (end.Pointer? ==> end.high >= 0xC0)
    ensures DecodeFrom(data, pos, 0) == Some(NameRead(if end.Pointer? then [DOT] else [], pos + |EndBytes(end)|))
  {
    assert data[pos + 0] == EndBytes(end)[0];
    if end.Pointer? {
      assert data[pos + 1] == EndBytes(end)[1];
      assert DecodeFrom(data, pos + 1, end.high) == Some(NameRead([], pos + 2));
      assert [DOT] + [] == [DOT];
    }
  }

  lemma ReadableIsRead(data: Bytes, pos: nat, n: WireName)
    requires LegalWire(n) && Readable(n) && IsAt(data, pos, WireBytes(n))
    ensures DecodedName(data, pos) == Some(NameRead(Text(n), pos + |WireBytes(n)|))
  {
    if n.labels == [] {
      assert data[pos + 0] == EndBytes(n.end)[0];
      assert data[pos + 1] == EndBytes(n.end)[1];
    } else {
      WireSplits(data, pos, n);
      ReadsLabels(data, pos, n);
    }
  }

  /** The loop never gets past a zero octet. */
  lemma {:induction false} StopsAtZero(data: Bytes, curPos: nat, len: nat, zero: nat)
    requires curPos <= zero < |data| && data[zero] == 0
    ensures DecodeFrom(data, curPos, len).Some? && DecodeFrom(data, curPos, len).value.curPos <= zero + 1
    decreases |data| - curPos
  {
    if data[curPos] != 0 && !IsPointer(len) {
      StopsAtZero(data, curPos + 1, if len == 0 then data[curPos] else len - 1, zero);
    }
  }

  lemma {:induction false} ZeroInside(data: Bytes, pos: nat, n: WireName, i: nat) returns (zero: nat)
    requires LegalWire(n) && i < |n.labels| && !NoZeroOctet(n.labels[i]) && IsAt(data, pos, WireBytes(n))
    ensures pos < zero < pos + |WireBytes(n)| - 1 && zero < |data| && data[zero] == 0
    decreases |n.labels|
  {
    WireSplits(data, pos, n);
    if i == 0 {
      var j :| 0 <= j < |n.labels[0]| && n.labels[0][j] == 0;
      zero := pos + 1 + j;
      assert |WireBytes(Tail(n))| >= 1;
    } else {
      zero := ZeroInside(data, pos + 1 + |n.labels[0]|, Tail(n), i - 1);
    }
  }

  /**
   Cursor exactness: on every wire name of RFC 1035, compressed or not, the
   decoder leaves the cursor exactly past the name if and only if the name is not
   the bare root and has no zero octet in a label; the second octet of a pointer
   may be zero.
   */
  lemma CursorExactIffReadable(data: Bytes, pos: nat, n: WireName)
    requires LegalWire(n) && IsAt(data, pos, WireBytes(n))
    ensures var r := DecodedName(data, pos);
            && (r.Some? && r.value.curPos == pos + |WireBytes(n)| <==> Readable(n))
            && (Readable(n) ==> r.value.name == Text(n))
  {
    if Readable(n) {
      ReadableIsRead(data, pos, n);
    } else if n.labels != [] {
      var i :| 0 <= i < |n.labels| && !NoZeroOctet(n.labels[i]);
      var zero := ZeroInside(data, pos, n, i);
      StopsAtZero(data, pos + 1, data[pos], zero);
    }
  }

  /** What the encoder writes for a legal name of two labels or more, the decoder reads back, to the very end. */
  lemma NameRoundTrip(data: Bytes, pos: nat, labels: seq<Bytes>)
    requires LegalLabels(labels) && |labels| >= 2 && |Join(labels)| < NPOS
    requires forall i | 0 <= i < |labels| :: NoZeroOctet(labels[i])
    requires IsAt(data, pos, EncodedName(Join(labels)))
    ensures DecodedName(data, pos) == Some(NameRead(Join(labels), pos + |EncodedName(Join(labels))|))
  {
    EncodesIffTwoLabels(labels);
    ReadableIsRead(data, pos, WireName(labels, Zero));
    TextIsJoin(labels);
  }
}
